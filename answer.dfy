/**
 * The two list transformations of the query path: the de-duplicated source
 * names of the retrieved documents, and the recommendation list parsed out
 * of the language model's comma-separated reply.
 */
module Answer {
  import opened Text
  import opened Ingest

  predicate NoDuplicates<T(==)>(s: seq<T>)
  {
    forall i, j :: 0 <= i < j < |s| ==> s[i] != s[j]
  }

  /** Position of the first occurrence of `x` in `s`. */
  function FirstIndex<T(==)>(s: seq<T>, x: T): (i: nat)
    requires x in s
    ensures i < |s| && s[i] == x && x !in s[..i]
  {
    if s[0] == x then 0
    else
      var i := 1 + FirstIndex(s[1..], x);
      assert s[..i] == [s[0]] + s[1..][..i - 1];
      i
  }

  /**
   * `list(dict.fromkeys(s))`: the keys are inserted left to right, and a key
   * already present keeps its place.
   */
  function Dedup<T(==)>(s: seq<T>): (r: seq<T>)
    ensures NoDuplicates(r)
    ensures forall k :: 0 <= k < |s| ==> s[k] in r
    ensures forall k :: 0 <= k < |r| ==> r[k] in s
    ensures |r| <= |s|
  {
    if s == [] then []
    else
      var d := Dedup(s[..|s| - 1]);
      var x := s[|s| - 1];
      assert s == s[..|s| - 1] + [x];
      if x in d then d else d + [x]
  }

  lemma FirstIndexExtend<T>(s: seq<T>, y: T, x: T)
    requires x in s
    ensures FirstIndex(s + [y], x) == FirstIndex(s, x)
  {
    var i := FirstIndex(s, x);
    var t := s + [y];
    assert t[i] == x && t[..i] == s[..i];
  }

  /**
   * The names come out in first-seen order: of two names, the one whose
   * first occurrence in `s` is earlier is listed first.
   */
  lemma {:induction false} DedupFirstSeenOrder<T>(s: seq<T>)
    ensures forall i, j :: 0 <= i < j < |Dedup(s)| ==>
              FirstIndex(s, Dedup(s)[i]) < FirstIndex(s, Dedup(s)[j])
  {
    if s != [] {
      var init, y := s[..|s| - 1], s[|s| - 1];
      assert s == init + [y];
      DedupFirstSeenOrder(init);
      var d := Dedup(init);
      forall i, j | 0 <= i < j < |Dedup(s)|
        ensures FirstIndex(s, Dedup(s)[i]) < FirstIndex(s, Dedup(s)[j])
      {
        FirstIndexExtend(init, y, Dedup(s)[i]);
        if j < |d| {
          FirstIndexExtend(init, y, Dedup(s)[j]);
        } else {
          assert y !in init;
          assert FirstIndex(s, y) == |init|;
        }
      }
    }
  }

  /** A list without repeats is left as it is. */
  lemma {:induction false} DedupDistinct<T>(s: seq<T>)
    requires NoDuplicates(s)
    ensures Dedup(s) == s
  {
    if s != [] {
      var init, y := s[..|s| - 1], s[|s| - 1];
      DedupDistinct(init);
      assert y !in init;
      assert s == init + [y];
    }
  }

  /** De-duplicating twice is the same as once. */
  lemma DedupIdempotent<T>(s: seq<T>)
    ensures Dedup(Dedup(s)) == Dedup(s)
  {
    DedupDistinct(Dedup(s));
  }

  /** `[doc.metadata.get('source', 'Unknown source') for doc in docs]`, de-duplicated. */
  function UniqueSources(docs: seq<Document>): (names: seq<string>)
    ensures NoDuplicates(names)
    ensures forall x :: x in names <==> exists k :: 0 <= k < |docs| && SourceOf(docs[k]) == x
  {
    var all := SourceNames(docs);
    assert forall x :: x in all <==> exists k :: 0 <= k < |docs| && SourceOf(docs[k]) == x by {
      forall x | x in all ensures exists k :: 0 <= k < |docs| && SourceOf(docs[k]) == x {
        var k := FirstIndex(all, x);
        assert SourceOf(docs[k]) == x;
      }
    }
    Dedup(all)
  }

  /**
   * The reported sources come in the order in which their names first
   * appear among the retrieved documents.
   */
  lemma UniqueSourcesFirstSeenOrder(docs: seq<Document>)
    ensures var names := UniqueSources(docs);
      names == Dedup(SourceNames(docs))
      && forall i, j :: 0 <= i < j < |names| ==>
           FirstIndex(SourceNames(docs), names[i]) < FirstIndex(SourceNames(docs), names[j])
  {
    DedupFirstSeenOrder(SourceNames(docs));
  }

  /** Retrieved documents from sources B, A, B, C give the sources B, A, C. */
  lemma UniqueSourcesExample(a: Document, b1: Document, b2: Document, c: Document)
    requires a.metadata == map["source" := "A"]
    requires b1.metadata == map["source" := "B"] && b2.metadata == map["source" := "B"]
    requires c.metadata == map["source" := "C"]
    ensures UniqueSources([b1, a, b2, c]) == ["B", "A", "C"]
  {
    assert SourceNames([b1, a, b2, c]) == ["B", "A", "B", "C"];
    DedupExample();
  }

  lemma DedupExample()
    ensures Dedup(["B", "A", "B", "C"]) == ["B", "A", "C"]
  {
    var s: seq<string> := ["B", "A", "B", "C"];
    assert s[..3] == ["B", "A", "B"] && s[..3][..2] == ["B", "A"] && s[..3][..2][..1] == ["B"];
    assert Dedup(["B"]) == ["B"] by { assert ["B"][..0] == []; }
    assert Dedup(["B", "A"]) == ["B", "A"];
    assert Dedup(["B", "A", "B"]) == ["B", "A"];
  }

  /** A document without a `source` entry is reported as `Unknown source`. */
  lemma MissingSourceReported(docs: seq<Document>, k: nat)
    requires k < |docs| && "source" !in docs[k].metadata
    ensures UnknownSource in UniqueSources(docs)
  {
  }

  /** `[rec.strip() for rec in pieces if rec.strip()]`. */
  function StripNonEmpty(pieces: seq<string>): (recs: seq<string>)
    ensures |recs| <= |pieces|
    ensures forall k :: 0 <= k < |recs| ==> recs[k] != [] && Trimmed(recs[k])
  {
    if pieces == [] then []
    else
      var s := Strip(pieces[0]);
      if s != [] then [s] + StripNonEmpty(pieces[1..]) else StripNonEmpty(pieces[1..])
  }

  /** Piece `p` is not all whitespace and strips to `x`. */
  predicate KeptAs(p: string, x: string)
  {
    Strip(p) == x && !AllSpace(p)
  }

  /** `x` is what some piece that is not all whitespace strips to. */
  predicate IsKeptPiece(pieces: seq<string>, x: string)
  {
    exists k :: 0 <= k < |pieces| && KeptAs(pieces[k], x)
  }

  /**
   * A stripped piece is kept exactly when the piece is not all whitespace,
   * and nothing else is kept.
   */
  lemma {:induction false} StripNonEmptyMembers(pieces: seq<string>, x: string)
    ensures x in StripNonEmpty(pieces) <==> IsKeptPiece(pieces, x)
  {
    if pieces != [] {
      var p, rest := pieces[0], pieces[1..];
      StripNonEmptyMembers(rest, x);
      StripEmptyIff(p);
      if IsKeptPiece(rest, x) {
        var k :| 0 <= k < |rest| && KeptAs(rest[k], x);
        assert pieces[k + 1] == rest[k];
      }
      if IsKeptPiece(pieces, x) {
        var k :| 0 <= k < |pieces| && KeptAs(pieces[k], x);
        if k > 0 { assert rest[k - 1] == pieces[k]; }
      }
    }
  }

  /** Stripping never brings in a character the piece did not have. */
  lemma {:induction false} StripNonEmptyAvoids(pieces: seq<string>, c: char)
    requires forall k :: 0 <= k < |pieces| ==> c !in pieces[k]
    ensures forall k :: 0 <= k < |StripNonEmpty(pieces)| ==> c !in StripNonEmpty(pieces)[k]
  {
    if pieces != [] {
      StripNonEmptyAvoids(pieces[1..], c);
      var p := pieces[0];
      var i, s := LeadingSpaces(p), Strip(p);
      SliceAvoids(p, i, i + |s|, c);
    }
  }

  lemma SliceAvoids(s: string, i: nat, j: nat, c: char)
    requires i <= j <= |s| && c !in s
    ensures c !in s[i..j]
  {
  }

  /**
   * The recommendations parsed from the model's reply: each comma-separated
   * piece stripped of surrounding whitespace, empty pieces dropped, order kept.
   */
  function Recommendations(reply: string): (recs: seq<string>)
    ensures forall k :: 0 <= k < |recs| ==> recs[k] != [] && Trimmed(recs[k])
    ensures |recs| <= |Split(reply, ',')|
  {
    StripNonEmpty(Split(reply, ','))
  }

  /**
   * Exactly the comma-separated pieces that are not all whitespace come out,
   * stripped, and none of them contains a comma.
   */
  lemma {:induction false} RecommendationsArePieces(reply: string, x: string)
    ensures x in Recommendations(reply) <==> IsKeptPiece(Split(reply, ','), x)
  {
    StripNonEmptyMembers(Split(reply, ','), x);
  }

  /** No recommendation contains a comma. */
  lemma RecommendationsCommaFree(reply: string)
    ensures forall k :: 0 <= k < |Recommendations(reply)| ==> ',' !in Recommendations(reply)[k]
  {
    StripNonEmptyAvoids(Split(reply, ','), ',');
  }

  /**
   * Joining any list of clean topics with commas and parsing the reply gives
   * exactly that list back: the parser keeps order and caps nothing.
   */
  lemma {:induction false} RecommendationsRoundTrip(topics: seq<string>)
    requires |topics| >= 1
    requires forall k :: 0 <= k < |topics| ==>
               topics[k] != [] && ',' !in topics[k] && Trimmed(topics[k])
    ensures Recommendations(Join(topics, ',')) == topics
  {
    SplitJoin(topics, ',');
    StripNonEmptyClean(topics);
  }

  lemma {:induction false} StripNonEmptyClean(topics: seq<string>)
    requires forall k :: 0 <= k < |topics| ==> topics[k] != [] && Trimmed(topics[k])
    ensures StripNonEmpty(topics) == topics
  {
    if topics != [] {
      StripTrimmed(topics[0]);
      StripNonEmptyClean(topics[1..]);
      assert topics == [topics[0]] + topics[1..];
    }
  }

  /**
   * The pieces are handled one at a time and independently: the result for
   * a concatenation is the concatenation of the results, so every kept piece
   * stays in its place and none is kept twice.
   */
  lemma {:induction false} StripNonEmptyAppend(a: seq<string>, b: seq<string>)
    ensures StripNonEmpty(a + b) == StripNonEmpty(a) + StripNonEmpty(b)
  {
    if a == [] {
      assert a + b == b;
    } else {
      var ab := a + b;
      assert ab[0] == a[0] && ab[1..] == a[1..] + b;
      StripNonEmptyAppend(a[1..], b);
    }
  }

  /** One piece gives its strip, or nothing when it is all whitespace. */
  lemma {:induction false} StripNonEmptySingle(p: string)
    ensures StripNonEmpty([p]) == if AllSpace(p) then [] else [Strip(p)]
  {
    StripEmptyIff(p);
    assert [p][1..] == [];
  }

  /**
   * Parsing the comma-join of any comma-free pieces, padded with whitespace
   * or not, gives the strips of those pieces that are not all whitespace,
   * in the order of the pieces.
   */
  lemma RecommendationsOfPieces(pieces: seq<string>)
    requires |pieces| >= 1
    requires forall k :: 0 <= k < |pieces| ==> ',' !in pieces[k]
    ensures Recommendations(Join(pieces, ',')) == StripNonEmpty(pieces)
  {
    SplitJoin(pieces, ',');
  }

  /**
   * The usual shape of the model's reply, `a, b, c` with a blank after each
   * comma, gives the three topics in that order.
   */
  lemma TypicalReply(a: char, b: char, c: char)
    requires !IsSpace(a) && !IsSpace(b) && !IsSpace(c)
    requires a != ',' && b != ',' && c != ','
    ensures Recommendations([a, ',', ' ', b, ',', ' ', c]) == [[a], [b], [c]]
  {
    var x, y, z := [a], [' ', b], [' ', c];
    var reply := [a, ',', ' ', b, ',', ' ', c];
    assert reply == Join([x, y, z], ',') by {
      JoinThree(x, y, z, ',');
    }
    RecommendationsOfPieces([x, y, z]);
    assert StripNonEmpty([x]) == [[a]] by {
      assert x[0] == a;
      StripTrimmed(x);
      StripNonEmptySingle(x);
    }
    assert StripNonEmpty([y]) == [[b]] by {
      StripBlankThenWord(b);
      StripNonEmptySingle(y);
    }
    assert StripNonEmpty([z]) == [[c]] by {
      StripBlankThenWord(c);
      StripNonEmptySingle(z);
    }
    StripNonEmptyThree(x, y, z);
  }

  lemma {:induction false} JoinThree(x: string, y: string, z: string, sep: char)
    ensures Join([x, y, z], sep) == x + [sep] + y + [sep] + z
  {
    var p := [x, y, z];
    assert p[1..] == [y, z] && p[1..][1..] == [z];
    assert Join(p[1..], sep) == y + [sep] + z;
    assert Join(p, sep) == x + [sep] + (y + [sep] + z);
  }

  lemma {:induction false} StripNonEmptyThree(x: string, y: string, z: string)
    ensures StripNonEmpty([x, y, z]) == StripNonEmpty([x]) + StripNonEmpty([y]) + StripNonEmpty([z])
  {
    var xy := [x] + [y];
    assert xy + [z] == [x, y, z];
    StripNonEmptyAppend(xy, [z]);
    StripNonEmptyAppend([x], [y]);
  }

  /** One blank followed by one non-blank character strips to that character. */
  lemma StripBlankThenWord(c: char)
    requires !IsSpace(c)
    ensures Strip([' ', c]) == [c] && !AllSpace([' ', c])
  {
    var s := [' ', c];
    assert s[1..] == [c];
    assert LeadingSpaces(s[1..]) == 0;
    assert LeadingSpaces(s) == 1;
    assert !IsSpace(s[1]);
  }

  /** A reply of only commas and whitespace gives no recommendation. */
  lemma NoTopicsInBlankReply()
    ensures Recommendations(" , ,") == []
  {
    assert Split(" , ,", ',') == [" ", " ", ""] by {
      SplitPrefix(" ", ", ,", ',');
      SplitPrefix(" ", ",", ',');
      assert ", ,"[1..] == " ,";
      assert " ,"[1..] == ",";
      assert " , ," == " " + ", ,";
      assert " ," == " " + ",";
    }
    assert AllSpace(" ");
    StripEmptyIff(" ");
    StripEmptyIff("");
  }
}
