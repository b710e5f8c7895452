// The reading of the AI reply inside the speech-to-text handler: whether a
// gig is asked for, and which items it names. `operator.contains(a, b)` is
// Python's `b in a`, so the handler tests whether the REPLY occurs inside the
// fixed marker text, not the other way round. `AsWritten` reads the reply the
// way the handler does; `Intended` swaps the operands of both tests, the
// reading the prompt's requested answer format calls for.

module SpeechReply {
  import opened Records
  import opened PyText

  const GigMarker: string := "Create gig: True"
  const ItemsMarker: string := "Items requested:"
  const NoItems: string := "NA"

  datatype Reading = AsWritten | Intended

  /** What the handler goes on to do with the reply. */
  datatype Decision =
    | NotNeeded           // 200, "gig creation not needed"
    | NoPickupItems       // 200, "gig creation failed. no specified pickup items"
    | CreateGig(items: string)  // goes on to look up a pickup place and save a quest and a gig
    | ParseError          // IndexError, caught by the generic handler: 400

  /** `contains('Create gig: True', response)`, or the swapped test. */
  predicate GigTest(rd: Reading, response: string)
  {
    match rd
    case AsWritten => IsSubstring(response, GigMarker)
    case Intended => IsSubstring(GigMarker, response)
  }

  /** `contains('Items requested:', line)`, or the swapped test. */
  predicate LineTest(rd: Reading, line: string)
  {
    match rd
    case AsWritten => IsSubstring(line, ItemsMarker)
    case Intended => IsSubstring(ItemsMarker, line)
  }

  /** `line.split(':')[1].strip()`; `None` where the index raises IndexError. */
  function ItemsField(line: string): (r: Option<string>)
    ensures r.None? <==> ':' !in line
    ensures r.Some? ==> Unpadded(r.value)
  {
    var parts := Split(line, ':');
    if |parts| < 2 then None else Some(Strip(parts[1]))
  }

  /** The loop over the reply's lines, from `requested` on: the last matching
      line's field wins; a matching line without ':' raises (`None`). */
  function ScanItems(rd: Reading, lines: seq<string>, requested: string): Option<string>
  {
    if |lines| == 0 then Some(requested)
    else if LineTest(rd, lines[0]) then
      match ItemsField(lines[0])
      case None => None
      case Some(v) => ScanItems(rd, lines[1..], v)
    else ScanItems(rd, lines[1..], requested)
  }

  /** The decision the handler takes on `response`. */
  function Decide(rd: Reading, response: string): Decision
  {
    if !GigTest(rd, response) then NotNeeded
    else
      match ScanItems(rd, Split(response, '\n'), NoItems)
      case None => ParseError
      case Some(v) => if v == NoItems then NoPickupItems else CreateGig(v)
  }

  /** The handler's branch on the reply, with its loop over the lines. */
  method ParseReply(rd: Reading, response: string) returns (d: Decision)
    ensures d == Decide(rd, response)
  {
    if !GigTest(rd, response) {
      return NotNeeded;
    }
    var lines := Split(response, '\n');
    var requested := NoItems;
    var i := 0;
    while i < |lines|
      invariant 0 <= i <= |lines|
      invariant ScanItems(rd, lines, NoItems) == ScanItems(rd, lines[i..], requested)
    {
      assert lines[i..][1..] == lines[i + 1..];
      if LineTest(rd, lines[i]) {
        var parts := Split(lines[i], ':');
        if |parts| < 2 {
          return ParseError;
        }
        requested := Strip(parts[1]);
      }
      i := i + 1;
    }
    d := if requested == NoItems then NoPickupItems else CreateGig(requested);
  }

  /** A line the loop picks up that has no ':' to split at. */
  predicate BadLine(rd: Reading, line: string)
  {
    LineTest(rd, line) && ':' !in line
  }

  /** The scan fails exactly when some matching line has no ':'. */
  lemma {:induction false} ScanFailsIff(rd: Reading, lines: seq<string>, requested: string)
    ensures ScanItems(rd, lines, requested).None?
            <==> exists k :: 0 <= k < |lines| && BadLine(rd, lines[k])
    decreases |lines|
  {
    if |lines| > 0 {
      var tail := lines[1..];
      var next := if LineTest(rd, lines[0]) && ':' in lines[0] then ItemsField(lines[0]).value else requested;
      ScanFailsIff(rd, tail, next);
      if exists k :: 0 <= k < |tail| && BadLine(rd, tail[k]) {
        var k :| 0 <= k < |tail| && BadLine(rd, tail[k]);
        assert lines[k + 1] == tail[k];
      }
      if exists k :: 0 <= k < |lines| && BadLine(rd, lines[k]) {
        var k :| 0 <= k < |lines| && BadLine(rd, lines[k]);
        if k > 0 {
          assert tail[k - 1] == lines[k];
        }
      }
    }
  }

  /** No line after `k` is picked up by the loop. */
  predicate LastMatchAt(rd: Reading, lines: seq<string>, k: int)
  {
    0 <= k < |lines| && LineTest(rd, lines[k]) && forall j :: k < j < |lines| ==> !LineTest(rd, lines[j])
  }

  lemma LastMatchShift(rd: Reading, lines: seq<string>, k: int)
    requires |lines| > 0 && LastMatchAt(rd, lines[1..], k)
    ensures LastMatchAt(rd, lines, k + 1) && lines[k + 1] == lines[1..][k]
  {
    forall j | k + 1 < j < |lines| ensures !LineTest(rd, lines[j]) {
      assert lines[j] == lines[1..][j - 1];
    }
  }

  lemma NoMatchShift(rd: Reading, lines: seq<string>)
    requires |lines| > 0 && forall j :: 0 <= j < |lines[1..]| ==> !LineTest(rd, lines[1..][j])
    ensures forall j :: 1 <= j < |lines| ==> !LineTest(rd, lines[j])
  {
    forall j | 1 <= j < |lines| ensures !LineTest(rd, lines[j]) {
      assert lines[j] == lines[1..][j - 1];
    }
  }

  /** A successful scan returns the field of the last matching line, and the
      starting value only when no line matches. */
  lemma {:induction false} ScanTakesLastMatch(rd: Reading, lines: seq<string>, requested: string, v: string)
    requires ScanItems(rd, lines, requested) == Some(v)
    ensures (v == requested && forall j :: 0 <= j < |lines| ==> !LineTest(rd, lines[j]))
            || exists k :: LastMatchAt(rd, lines, k) && ItemsField(lines[k]) == Some(v)
    decreases |lines|
  {
    if |lines| > 0 {
      var tail := lines[1..];
      var next := if LineTest(rd, lines[0]) then ItemsField(lines[0]).value else requested;
      assert ScanItems(rd, tail, next) == Some(v);
      ScanTakesLastMatch(rd, tail, next, v);
      if k :| LastMatchAt(rd, tail, k) && ItemsField(tail[k]) == Some(v) {
        LastMatchShift(rd, lines, k);
      } else {
        NoMatchShift(rd, lines);
        if LineTest(rd, lines[0]) {
          assert LastMatchAt(rd, lines, 0);
        }
      }
    }
  }

  /** When the handler's gig test passes, the reply has no line break, so
      it is the only line the loop sees. */
  lemma GigTestMeansOneLine(response: string)
    requires GigTest(AsWritten, response)
    ensures '\n' !in response
    ensures Split(response, '\n') == [response]
  {
    SubstringChars(response, GigMarker);
    assert '\n' !in GigMarker;
    SplitWithoutSep(response, '\n');
  }

  /** As written, a reply laid out as the prompt asks for is never taken for a
      gig request: it is longer than the marker it is looked for in. */
  lemma AsWrittenIgnoresWellFormedReply(items: string)
    ensures Decide(AsWritten, GigMarker + "\n" + (ItemsMarker + items)) == NotNeeded
  {
    var reply := GigMarker + "\n" + (ItemsMarker + items);
    if IsSubstring(reply, GigMarker) {
      SubstringChars(reply, GigMarker);
    }
  }

  lemma ColonOnlyAtEnd(m: string, k: int)
    requires m == ItemsMarker && 0 <= k < |m| && m[k] == ':'
    ensures k == |m| - 1
  {
    assert m == "Items requested" + [':'];
  }

  lemma ColonInGigMarker(m: string, k: int)
    requires m == GigMarker && 0 <= k < |m| && m[k] == ':'
    ensures k == 10
  {
    assert m == "Create gig" + [':'] + " True";
  }

  lemma MarkersBeforeColon()
    ensures ItemsMarker[14] == 'd' && GigMarker[9] == 'g'
  {
  }

  /** A text that ends at position `i + |s|` of `a` and `j + |s|` of `b`,
      where the characters before those positions differ, is one character long. */
  lemma EndsDiffer(s: string, a: string, i: int, b: string, j: int)
    requires OccursAt(s, a, i) && OccursAt(s, b, j) && |s| >= 1
    requires |s| >= 2 ==> a[i + |s| - 2] != b[j + |s| - 2]
    ensures |s| == 1
  {
  }

  /** The lone ":" is the only text with a ':' that occurs in both markers. */
  lemma ColonInBothMarkers(s: string)
    requires IsSubstring(s, ItemsMarker) && IsSubstring(s, GigMarker) && ':' in s
    ensures s == ":"
  {
    var k :| 0 <= k < |s| && s[k] == ':';
    var i :| 0 <= i <= |ItemsMarker| - |s| && OccursAt(s, ItemsMarker, i);
    var j :| 0 <= j <= |GigMarker| - |s| && OccursAt(s, GigMarker, j);
    ColonOffsets(s, k, i, j);
    MarkersBeforeColon();
    EndsDiffer(s, ItemsMarker, i, GigMarker, j);
    assert s == [':'];
  }

  lemma ColonOffsets(s: string, k: int, i: int, j: int)
    requires 0 <= k < |s| && s[k] == ':'
    requires OccursAt(s, ItemsMarker, i) && OccursAt(s, GigMarker, j)
    ensures k == |s| - 1 && i + k == 15 && j + k == 10
  {
    assert ItemsMarker[i + k] == s[k];
    ColonOnlyAtEnd(ItemsMarker, i + k);
    assert GigMarker[j + k] == s[k];
    ColonInGigMarker(GigMarker, j + k);
  }

  /** As written, the only reply that yields items is the lone ":" and the
      items it yields are empty: every other reply the gig test lets through
      has no ':' (an error) or fails the line test (no items). */
  lemma AsWrittenItemsOnlyFromColon(response: string, v: string)
    requires Decide(AsWritten, response) == CreateGig(v)
    ensures response == ":" && v == ""
  {
    GigTestMeansOneLine(response);
    OneLineScan(AsWritten, response, v);
    ColonInBothMarkers(response);
    assert [] + ":" + [] == response;
    FieldAfterColon([], []);
  }

  /** A one-line scan that yields a value other than the default took it
      from that line. */
  lemma OneLineScan(rd: Reading, line: string, v: string)
    requires ScanItems(rd, [line], NoItems) == Some(v) && v != NoItems
    ensures LineTest(rd, line) && ItemsField(line) == Some(v) && ':' in line
  {
    assert [line][1..] == [];
  }

  lemma TwoLines(a: string, b: string)
    requires '\n' !in a && '\n' !in b
    ensures Split(a + "\n" + b, '\n') == [a, b]
  {
    assert a + "\n" + b == a + ['\n'] + b;
    SplitAtFirst(a, '\n', b);
    SplitWithoutSep(b, '\n');
  }

  lemma FieldAfterColon(head: string, tail: string)
    requires ':' !in head && ':' !in tail
    ensures ItemsField(head + ":" + tail) == Some(Strip(tail))
  {
    var line := head + ":" + tail;
    assert line == head + [':'] + tail;
    SplitAtFirst(head, ':', tail);
    SplitWithoutSep(tail, ':');
    assert Split(line, ':') == [head, tail];
  }

  lemma MarkerLineIsNoItemsLine()
    ensures !LineTest(Intended, GigMarker)
  {
    assert |ItemsMarker| == |GigMarker|;
    assert GigMarker[0] != ItemsMarker[0];
    assert !OccursAt(ItemsMarker, GigMarker, 0);
  }

  /** The items line of a well-formed reply passes the intended line test
      and yields its stripped items. */
  lemma ItemsLineField(items: string)
    requires ':' !in items
    ensures LineTest(Intended, ItemsMarker + items)
    ensures ItemsField(ItemsMarker + items) == Some(Strip(items))
  {
    var second := ItemsMarker + items;
    assert second[..|ItemsMarker|] == ItemsMarker;
    PrefixIsSubstring(ItemsMarker, second);
    assert ItemsMarker == "Items requested" + ":";
    FieldAfterColon("Items requested", items);
  }

  /** A reply of two lines of which only the second matches: its field is the result. */
  lemma ScanReplyOfLines(a: string, b: string, v: string)
    requires '\n' !in a && '\n' !in b
    requires !LineTest(Intended, a) && LineTest(Intended, b) && ItemsField(b) == Some(v)
    ensures ScanItems(Intended, Split(a + "\n" + b, '\n'), NoItems) == Some(v)
  {
    TwoLines(a, b);
    ScanTwoLines(Intended, a, b, v);
  }

  lemma NewlineFreeItemsLine(items: string)
    requires '\n' !in items
    ensures '\n' !in GigMarker && '\n' !in ItemsMarker + items
  {
    assert '\n' !in ItemsMarker;
  }

  /** Two lines of which only the second matches: its field is the result. */
  lemma ScanTwoLines(rd: Reading, a: string, b: string, v: string)
    requires !LineTest(rd, a) && LineTest(rd, b) && ItemsField(b) == Some(v)
    ensures ScanItems(rd, [a, b], NoItems) == Some(v)
  {
    var lines := [a, b];
    assert lines[1..] == [b];
    assert [b][1..] == [];
    assert ScanItems(rd, lines, NoItems) == ScanItems(rd, [b], NoItems);
    assert ScanItems(rd, [b], NoItems) == ScanItems(rd, [], v);
  }

  /** Read as evidently intended, a reply in the requested format yields its
      stripped items, and "NA" means no items. */
  lemma IntendedReadingExtractsItems(items: string)
    requires '\n' !in items && ':' !in items
    ensures var reply := GigMarker + "\n" + (ItemsMarker + items);
            Decide(Intended, reply) == if Strip(items) == NoItems then NoPickupItems else CreateGig(Strip(items))
  {
    var reply := GigMarker + "\n" + (ItemsMarker + items);
    assert reply[..|GigMarker|] == GigMarker;
    PrefixIsSubstring(GigMarker, reply);
    assert GigTest(Intended, reply);
    ItemsLineField(items);
    MarkerLineIsNoItemsLine();
    NewlineFreeItemsLine(items);
    ScanReplyOfLines(GigMarker, ItemsMarker + items, Strip(items));
  }

  /** Under either reading, the handler returns items only when they are not "NA". */
  lemma CreateGigNeverNA(rd: Reading, response: string)
    ensures Decide(rd, response) != CreateGig(NoItems)
  {
  }
}
