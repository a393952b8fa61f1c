/** Markdown files with front matter (content_store.py). The YAML text of the metadata is opaque: it is
  * some text without white space at either end. */
module FrontMatter {
  import opened Prelude
  import opened Text

  const OPEN := "---\n"
  const MARKER := "\n---\n"

  /** `markdown_frontmatter`, given the metadata's YAML text. */
  function Print(metadata: string, body: string): string {
    OPEN + metadata + "\n---\n\n" + TrimRight(body) + "\n"
  }

  /** `str.lstrip("\n")`. */
  function DropNewlines(s: string): (r: string)
    ensures r != [] ==> r[0] != LF
    ensures |r| <= |s|
  {
    if s != [] && s[0] == LF then DropNewlines(s[1..]) else s
  }

  datatype Parsed = Front(metadata: string, body: string) | Plain(raw: string)

  /** `parse_frontmatter`; `isMapping` says which YAML texts load as a mapping. */
  function Parse(raw: string, isMapping: string -> bool): Parsed {
    if OPEN <= raw then
      var end := Find(raw, MARKER, 4);
      if end.Some? && isMapping(raw[4..end.value]) then
        Front(raw[4..end.value], DropNewlines(raw[end.value + 5..]))
      else Plain(raw)
    else Plain(raw)
  }

  /** The body as `content_item_from_legacy_file` stores it. */
  function RecoveredBody(p: Parsed): string {
    TrimRight(if p.Front? then p.body else p.raw)
  }

  /** What a parse takes apart is there: metadata that loads as a mapping stands between the opening line and a marker,
    * and the body is what follows but for line feeds; any other text is a body as it is. */
  lemma ParsedIsThere(raw: string, isMapping: string -> bool)
    ensures
      var p := Parse(raw, isMapping);
      && (p.Front? ==>
            && isMapping(p.metadata) && 9 + |p.metadata| <= |raw|
            && raw[..9 + |p.metadata|] == OPEN + p.metadata + MARKER
            && p.body == DropNewlines(raw[9 + |p.metadata|..]) && RecoveredBody(p) == TrimRight(p.body))
      && (p.Plain? ==> p.raw == raw && RecoveredBody(p) == TrimRight(raw))
  {
    if Parse(raw, isMapping).Front? {
      var end := Find(raw, MARKER, 4).value;
      assert raw[..4] == OPEN && raw[end..end + 5] == MARKER;
      assert raw[..end + 5] == raw[..4] + raw[4..end] + raw[end..end + 5];
    }
  }

  /** The closing marker is the first one in the printed text. */
  predicate MarkerIsFirst(metadata: string) {
    Find(metadata + MARKER, MARKER, 0) == Some(|metadata|)
  }

  /** The text ends in a line that is a marker without its line feed. */
  predicate EndsInFence(s: string) {
    |s| >= 4 && s[|s| - 4..] == "\n---"
  }

  lemma TerminatorMatches(metadata: string)
    ensures HasAt(metadata + MARKER, MARKER, |metadata|)
  {
  }

  /** What that means for the metadata text itself. */
  lemma MarkerIsFirstIff(metadata: string)
    ensures MarkerIsFirst(metadata) <==>
            !Contains(metadata, MARKER) && !EndsInFence(metadata)
  {
    TerminatorMatches(metadata);
    var first := Find(metadata + MARKER, MARKER, 0).value;
    if first < |metadata| {
      MarkerAcross(metadata, first);
    } else {
      NothingEarlier(metadata);
    }
  }

  lemma NothingEarlier(metadata: string)
    requires forall i :: 0 <= i < |metadata| ==> !HasAt(metadata + MARKER, MARKER, i)
    ensures !Contains(metadata, MARKER) && !EndsInFence(metadata)
  {
    var all := metadata + MARKER;
    var n := |metadata|;
    if i :| 0 <= i <= n && HasAt(metadata, MARKER, i) {
      assert all[i..i + |MARKER|] == metadata[i..i + |MARKER|];
      assert HasAt(all, MARKER, i);
    }
    if EndsInFence(metadata) {
      assert all[n - 4..n + 1] == metadata[n - 4..] + [MARKER[0]];
      assert HasAt(all, MARKER, n - 4);
    }
  }

  /** A marker that starts inside the metadata lies inside it, or overlaps the terminator by one character:
    * its last character is its only line feed after the first. */
  lemma MarkerAcross(metadata: string, first: nat)
    requires first < |metadata| && HasAt(metadata + MARKER, MARKER, first)
    ensures HasAt(metadata, MARKER, first) || EndsInFence(metadata)
  {
    var all := metadata + MARKER;
    var n := |metadata|;
    if first + 5 <= n {
      assert metadata[first..first + 5] == all[first..first + 5];
    } else {
      assert all[n] == all[first..first + 5][n - first] == MARKER[n - first];
      assert n - first == 4;
      assert metadata[n - 4..] == all[first..first + 5][..4];
    }
  }

  function Tail(body: string): string {
    [LF] + TrimRight(body) + [LF]
  }

  lemma PrintedShape(metadata: string, body: string)
    ensures Print(metadata, body) == OPEN + (metadata + MARKER) + Tail(body)
  {
    assert "\n---\n\n" == MARKER + [LF];
  }

  lemma Pieces(open: string, metadata: string, marker: string, tail: string, k: nat)
    requires k <= |metadata|
    ensures
      var raw := open + (metadata + marker) + tail;
      && open <= raw
      && |raw| >= |open| + |metadata| + |marker|
      && raw[|open|..|open| + k] == metadata[..k]
      && raw[|open| + |metadata| + |marker|..] == tail
  {
  }

  /** Searching the printed text finds the first marker of metadata plus terminator; around it the text
    * falls apart into the metadata up to there and the rest. */
  lemma FirstMarker(metadata: string, body: string)
    ensures
      var first := Find(metadata + MARKER, MARKER, 0);
      var raw := Print(metadata, body);
      && first.Some? && first.value <= |metadata|
      && OPEN <= raw && |raw| >= 9 + |metadata|
      && Find(raw, MARKER, 4) == Some(4 + first.value)
      && raw[4..4 + first.value] == metadata[..first.value]
      && raw[4 + |metadata| + 5..] == Tail(body)
  {
    PrintedShape(metadata, body);
    TerminatorMatches(metadata);
    var first := FindBetween(OPEN, metadata + MARKER, Tail(body), MARKER, |metadata|);
    Pieces(OPEN, metadata, MARKER, Tail(body), first);
  }

  lemma DropOne(s: string)
    ensures DropNewlines([LF] + s) == DropNewlines(s)
  {
    assert ([LF] + s)[1..] == s;
  }

  /** Printing then parsing gives the metadata text back exactly when the closing marker comes first
    * (for texts that load as a mapping). */
  lemma MetadataRoundTrip(metadata: string, body: string, isMapping: string -> bool)
    requires isMapping(metadata)
    ensures MarkerIsFirst(metadata) <==>
            (Parse(Print(metadata, body), isMapping).Front?
             && Parse(Print(metadata, body), isMapping).metadata == metadata)
  {
    FirstMarker(metadata, body);
    assert metadata[..|metadata|] == metadata;
  }

  lemma ParsedWhole(metadata: string, body: string, isMapping: string -> bool)
    requires isMapping(metadata) && MarkerIsFirst(metadata)
    ensures Parse(Print(metadata, body), isMapping) == Front(metadata, DropNewlines(Tail(body)))
  {
    var raw := Print(metadata, body);
    FirstMarker(metadata, body);
    var end := Find(raw, MARKER, 4).value;
    assert end == 4 + |metadata|;
    assert raw[4..end] == metadata;
    assert raw[end + 5..] == Tail(body);
  }

  /** What is left of a right-trimmed body after the line feeds around it are dropped again. */
  lemma BodyOf(b: string)
    requires b == [] || !IsSpace(Last(b))
    ensures TrimRight(DropNewlines(b + [LF])) == b <==> (b == [] || b[0] != LF)
  {
    if b == [] {
      DropOne([]);
      assert [] + [LF] == [LF] + [];
    } else if b[0] != LF {
      assert DropNewlines(b + [LF]) == b + [LF];
      assert (b + [LF])[..|b|] == b;
    } else {
      assert TrimRight(DropNewlines(b + [LF])) <= DropNewlines(b + [LF]);
    }
  }

  /** And then it gives back the body without its trailing white space, exactly when that does not start
    * with a line feed. */
  lemma BodyRoundTrip(metadata: string, body: string, isMapping: string -> bool)
    requires isMapping(metadata) && MarkerIsFirst(metadata)
    ensures RecoveredBody(Parse(Print(metadata, body), isMapping)) == TrimRight(body) <==>
            (TrimRight(body) == [] || TrimRight(body)[0] != LF)
  {
    ParsedWhole(metadata, body, isMapping);
    TailDropped(TrimRight(body));
    BodyOf(TrimRight(body));
  }

  lemma TailDropped(b: string)
    ensures DropNewlines([LF] + b + [LF]) == DropNewlines(b + [LF])
  {
    assert [LF] + b + [LF] == [LF] + (b + [LF]);
    DropOne(b + [LF]);
  }

  // ---------------------------------------------------------------- through a file

  /** The length of the line end or the character that the text begins with. */
  function Width(s: string): nat
    requires s != []
  {
    if |s| >= 2 && s[0] == CR && s[1] == LF then 2 else 1
  }

  /** What `read_text` makes of the text that `write_text` stored: CR LF and CR alone are read as LF. */
  function ReadBack(s: string): (r: string)
    ensures CR !in r
    ensures |r| <= |s|
  {
    if s == [] then [] else [if s[0] == CR then LF else s[0]] + ReadBack(s[Width(s)..])
  }

  lemma {:induction false} ReadBackFixpoint(s: string)
    requires CR !in s
    ensures ReadBack(s) == s
  {
    if s != [] {
      ReadBackFixpoint(s[1..]);
    }
  }

  /** Text without CR in front is read as it is. */
  lemma {:induction false} ReadBackAfter(a: string, b: string)
    requires CR !in a
    ensures ReadBack(a + b) == a + ReadBack(b)
  {
    if a == [] {
      assert a + b == b;
    } else {
      assert (a + b)[1..] == a[1..] + b;
      ReadBackAfter(a[1..], b);
    }
  }

  /** Text whose last character is no CR is read independently of what follows. */
  lemma {:induction false} ReadBackBefore(a: string, b: string)
    requires a == [] || Last(a) != CR
    ensures ReadBack(a + b) == ReadBack(a) + ReadBack(b)
  {
    if a == [] {
      assert a + b == b;
    } else {
      var w := Width(a);
      assert Width(a + b) == w && (a + b)[w..] == a[w..] + b;
      ReadBackBefore(a[w..], b);
    }
  }

  /** Such text keeps its last character. */
  lemma {:induction false} ReadBackLast(a: string)
    requires a != [] && Last(a) != CR
    ensures ReadBack(a) != [] && Last(ReadBack(a)) == Last(a)
  {
    if Width(a) < |a| {
      ReadBackLast(a[Width(a)..]);
    }
  }

  /** A printed file is read as the file printed from what the body reads as. */
  lemma PrintedReadsBack(metadata: string, body: string)
    requires CR !in metadata
    ensures ReadBack(Print(metadata, body)) == Print(metadata, ReadBack(TrimRight(body)))
    ensures TrimRight(ReadBack(TrimRight(body))) == ReadBack(TrimRight(body))
  {
    var u := TrimRight(body);
    var head := OPEN + metadata + "\n---\n\n";
    assert Print(metadata, body) == head + (u + [LF]);
    ReadBackAfter(head, u + [LF]);
    ReadBackBefore(u, [LF]);
    if u != [] {
      ReadBackLast(u);
    }
    ReadBackFixpoint([LF]);
    assert Print(metadata, ReadBack(u)) == head + (TrimRight(ReadBack(u)) + [LF]);
  }

  lemma {:induction false} SubTextHasNoCr(s: string, i: nat)
    requires CR !in s && i <= |s|
    ensures CR !in s[i..] && CR !in s[..i] && CR !in DropNewlines(s) && CR !in TrimRight(s)
    decreases |s|
  {
    if s != [] {
      SubTextHasNoCr(s[1..], 0);
      SubTextHasNoCr(s[..|s| - 1], 0);
    }
  }

  lemma ParsedHasNoCr(raw: string, isMapping: string -> bool)
    requires CR !in raw
    ensures CR !in RecoveredBody(Parse(raw, isMapping))
    ensures Parse(raw, isMapping).Front? ==> CR !in Parse(raw, isMapping).metadata
  {
    var p := Parse(raw, isMapping);
    if p.Front? {
      var end := Find(raw, MARKER, 4).value;
      SubTextHasNoCr(raw, end + 5);
      SubTextHasNoCr(raw[end + 5..], 0);
      SubTextHasNoCr(p.body, 0);
      SubTextHasNoCr(raw, 4);
    } else {
      SubTextHasNoCr(raw, 0);
    }
  }

  /** Printing to a file, reading and parsing it gives the metadata text back exactly when that contains no
    * CR and its closing marker comes first. */
  lemma MetadataFileRoundTrip(metadata: string, body: string, isMapping: string -> bool)
    requires isMapping(metadata)
    ensures
      var p := Parse(ReadBack(Print(metadata, body)), isMapping);
      p.Front? && p.metadata == metadata <==> CR !in metadata && MarkerIsFirst(metadata)
  {
    ParsedHasNoCr(ReadBack(Print(metadata, body)), isMapping);
    if CR !in metadata {
      PrintedReadsBack(metadata, body);
      MetadataRoundTrip(metadata, ReadBack(TrimRight(body)), isMapping);
    }
  }

  /** And the body without its trailing white space exactly when that contains no CR and does not start with a
    * line feed. */
  lemma BodyFileRoundTrip(metadata: string, body: string, isMapping: string -> bool)
    requires isMapping(metadata) && CR !in metadata && MarkerIsFirst(metadata)
    ensures
      var u := TrimRight(body);
      RecoveredBody(Parse(ReadBack(Print(metadata, body)), isMapping)) == u <==> CR !in u && (u == [] || u[0] != LF)
  {
    var u := TrimRight(body);
    PrintedReadsBack(metadata, body);
    ParsedHasNoCr(ReadBack(Print(metadata, body)), isMapping);
    if CR !in u {
      ReadBackFixpoint(u);
      BodyRoundTrip(metadata, ReadBack(u), isMapping);
    }
  }
}
