/** The event stream on the wire: the server's frame printer (go/internal/httpapi/router.go,
    `subscribe`) and the two clients' incremental parsers (clients/ts/src/client.ts and
    clients/python/foldbase/client.py, `subscribe`), on already decoded text. */
module Sse {
  import opened Basics
  import opened Decimal
  import opened Text

  // ── the printer ──────────────────────────────────────────────────────────────

  datatype Item = Event(seqNo: nat, eventType: string, data: string) | Comment(text: string)

  /** What the server sends: an event type is PascalCase, the data is a JSON object on one
      line (RFC 8259 section 7 keeps raw newlines out of strings), a comment one line. */
  predicate Sendable(item: Item) {
    match item
    case Event(_, eventType, data) => '\n' !in eventType && '\n' !in data && data != "" && data[0] == '{'
    case Comment(text) => '\n' !in text
  }

  predicate AllSendable(items: seq<Item>) { forall item :: item in items ==> Sendable(item) }

  function IdLine(n: nat): string { "id: " + Digits(n) }

  function TypeLine(eventType: string): string { "event: " + eventType }

  function DataLine(data: string): string { "data: " + data }

  /** A frame without the blank line that ends it. */
  function Raw(item: Item): string {
    match item
    case Event(n, eventType, data) => IdLine(n) + ['\n'] + (TypeLine(eventType) + ['\n'] + DataLine(data))
    case Comment(text) => ":" + text
  }

  const BLANK := ['\n', '\n']

  function Print(item: Item): string { Raw(item) + BLANK }

  function PrintAll(items: seq<Item>): string { if items == [] then "" else Print(items[0]) + PrintAll(items[1..]) }

  // ── cutting a buffer into frames ─────────────────────────────────────────────

  predicate BlankAt(s: string, i: int) { 0 <= i && i + 1 < |s| && s[i] == '\n' && s[i + 1] == '\n' }

  /** Index of the first blank line, or the length when there is none. */
  function Break(s: string): (i: nat)
    ensures i <= |s| && (i < |s| ==> BlankAt(s, i))
    ensures forall j :: 0 <= j < i ==> !BlankAt(s, j)
  {
    if |s| < 2 then |s|
    else if BlankAt(s, 0) then 0
    else
      var i := Break(s[1..]);
      assert forall j :: 1 <= j ==> (BlankAt(s, j) <==> BlankAt(s[1..], j - 1));
      1 + i
  }

  lemma BreakIs(s: string, i: nat)
    requires i == |s| || BlankAt(s, i)
    requires i <= |s| && forall j :: 0 <= j < i ==> !BlankAt(s, j)
    ensures Break(s) == i
  {
    var k := Break(s);
    assert k < i ==> BlankAt(s, k);
  }

  function Frames(buf: string): seq<string>
    decreases |buf|
  {
    var i := Break(buf);
    if i == |buf| then [] else [buf[..i]] + Frames(buf[i + 2..])
  }

  /** What is left in the buffer: the start of a frame still to come. */
  function Rest(buf: string): string
    decreases |buf|
  {
    var i := Break(buf);
    if i == |buf| then buf else Rest(buf[i + 2..])
  }

  lemma FramesStep(buf: string)
    requires Break(buf) < |buf|
    ensures var i := Break(buf); Frames(buf) == [buf[..i]] + Frames(buf[i + 2..]) && Rest(buf) == Rest(buf[i + 2..])
  {
  }

  lemma NoFrames(buf: string)
    requires Break(buf) == |buf|
    ensures Frames(buf) == [] && Rest(buf) == buf
  {
  }

  /** More text never changes a frame that is already complete, so it does not matter
      when the buffer was drained. */
  lemma {:induction false} DrainAnytime(a: string, b: string)
    ensures Frames(a + b) == Frames(a) + Frames(Rest(a) + b)
    ensures Rest(a + b) == Rest(Rest(a) + b)
    decreases |a|
  {
    if Break(a) < |a| {
      DrainAnytime(a[Break(a) + 2..], b);
      DrainStep(a, b, a[..Break(a)], a[Break(a) + 2..]);
    } else {
      NoFrames(a);
      assert [] + Frames(a + b) == Frames(a + b);
    }
  }

  lemma DrainStep(a: string, b: string, first: string, tail: string)
    requires Break(a) < |a| && first == a[..Break(a)] && tail == a[Break(a) + 2..]
    requires Frames(tail + b) == Frames(tail) + Frames(Rest(tail) + b) && Rest(tail + b) == Rest(Rest(tail) + b)
    ensures Frames(a + b) == Frames(a) + Frames(Rest(a) + b) && Rest(a + b) == Rest(Rest(a) + b)
  {
    BreakStays(a, b);
    FramesStep(a);
    FramesStep(a + b);
    Associate([first], Frames(tail), Frames(Rest(tail) + b));
  }

  lemma Associate(a: seq<string>, b: seq<string>, c: seq<string>)
    ensures a + (b + c) == a + b + c
  {
  }

  lemma BreakStays(a: string, b: string)
    requires Break(a) < |a|
    ensures var i := Break(a); Break(a + b) == i && (a + b)[..i] == a[..i] && (a + b)[i + 2..] == a[i + 2..] + b
  {
    var i := Break(a);
    assert forall j :: 0 <= j <= i ==> BlankAt(a + b, j) == BlankAt(a, j);
    BreakIs(a + b, i);
  }

  /** Every newline is followed by something that is not one. */
  predicate Whole(raw: string) { forall i :: 0 <= i < |raw| && raw[i] == '\n' ==> i + 1 < |raw| && raw[i + 1] != '\n' }

  lemma FirstFrame(raw: string, tail: string)
    requires Whole(raw)
    ensures Frames(raw + BLANK + tail) == [raw] + Frames(tail) && Rest(raw + BLANK + tail) == Rest(tail)
  {
    var s := raw + BLANK + tail;
    forall j | 0 <= j < |raw| ensures !BlankAt(s, j) {
      assert s[j] == raw[j];
      assert raw[j] == '\n' ==> s[j + 1] == raw[j + 1];
    }
    assert s[|raw|] == '\n' && s[|raw| + 1] == '\n';
    BreakIs(s, |raw|);
    assert s[..|raw|] == raw && s[|raw| + 2..] == tail;
  }

  /** Nothing short of its blank line is taken for a frame. */
  lemma CutShort(raw: string, t: string)
    requires Whole(raw) && |t| < |raw| + 2 && t == (raw + BLANK)[..|t|]
    ensures Frames(t) == [] && Rest(t) == t
  {
    var s := raw + BLANK;
    forall j | 0 <= j < |t| ensures !BlankAt(t, j) {
      if j + 1 < |t| {
        assert t[j] == s[j] && t[j + 1] == s[j + 1];
        assert s[j] == raw[j];
        assert raw[j] == '\n' ==> s[j + 1] == raw[j + 1];
      }
    }
    BreakIs(t, |t|);
  }

  lemma LineIsWhole(line: string)
    requires '\n' !in line
    ensures Whole(line)
  {
    assert forall i :: 0 <= i < |line| ==> line[i] in line;
  }

  lemma LinesAreWhole(line: string, rest: string)
    requires '\n' !in line && Whole(rest) && rest != "" && rest[0] != '\n'
    ensures Whole(line + ['\n'] + rest)
  {
    var s := line + ['\n'] + rest;
    assert forall k :: 0 <= k < |line| ==> s[k] == line[k] && line[k] in line;
    forall i | 0 <= i < |s| && s[i] == '\n' ensures i + 1 < |s| && s[i + 1] != '\n' {
      if i == |line| {
        assert s[i + 1] == rest[0];
      } else {
        var k := i - |line| - 1;
        assert s[i] == rest[k];
        assert s[i + 1] == rest[k + 1];
      }
    }
  }

  lemma NoNewlineIn(prefix: string, text: string)
    requires '\n' !in prefix && '\n' !in text
    ensures '\n' !in prefix + text
  {
  }

  lemma DigitsHaveNoNewline(n: nat)
    ensures '\n' !in Digits(n)
  {
    assert forall i :: 0 <= i < |Digits(n)| ==> IsDigit(Digits(n)[i]);
  }

  lemma LinesOf(item: Item)
    requires Sendable(item) && item.Event?
    ensures '\n' !in IdLine(item.seqNo) && '\n' !in TypeLine(item.eventType) && '\n' !in DataLine(item.data)
  {
    DigitsHaveNoNewline(item.seqNo);
    NoNewlineIn("id: ", Digits(item.seqNo));
    NoNewlineIn("event: ", item.eventType);
    NoNewlineIn("data: ", item.data);
  }

  lemma RawIsWhole(item: Item)
    requires Sendable(item)
    ensures Whole(Raw(item))
  {
    match item
    case Event(n, eventType, data) =>
      LinesOf(item);
      LineIsWhole(DataLine(data));
      LinesAreWhole(TypeLine(eventType), DataLine(data));
      LinesAreWhole(IdLine(n), TypeLine(eventType) + ['\n'] + DataLine(data));
    case Comment(text) =>
      NoNewlineIn(":", text);
      LineIsWhole(":" + text);
  }

  function Raws(items: seq<Item>): seq<string> { if items == [] then [] else [Raw(items[0])] + Raws(items[1..]) }

  /** The next frame cut off anywhere before its end, or nothing. */
  predicate Unfinished(t: string, next: Item) { |t| < |Print(next)| && t == Print(next)[..|t|] }

  /** A stream of whole frames and an unfinished one cuts into exactly the whole ones. */
  lemma {:induction false} FramesOfStream(items: seq<Item>, t: string, next: Item)
    requires AllSendable(items) && Sendable(next) && Unfinished(t, next)
    ensures Frames(PrintAll(items) + t) == Raws(items) && Rest(PrintAll(items) + t) == t
  {
    if items == [] {
      RawIsWhole(next);
      CutShort(Raw(next), t);
      assert PrintAll(items) + t == t;
    } else {
      assert items[0] in items;
      RawIsWhole(items[0]);
      var tail := PrintAll(items[1..]) + t;
      assert PrintAll(items) + t == Raw(items[0]) + BLANK + tail;
      FirstFrame(Raw(items[0]), tail);
      FramesOfStream(items[1..], t, next);
    }
  }

  // ── the TypeScript client ────────────────────────────────────────────────────

  /** The client's `lastId`; spellings of a number other than digits are kept as text. */
  datatype Cursor = Unset | At(n: int) | OtherText(s: string)

  datatype Delivery = Delivery(lastId: Cursor, data: string)

  datatype TsState = TsState(lastId: Cursor, got: seq<Delivery>)

  datatype Fields = Fields(id: Option<string>, data: Option<string>)

  predicate IsWhitespace(c: char) { c == ' ' || c == '\t' || c == '\n' || c == '\r' }

  function TrimStart(s: string): string { if s != "" && IsWhitespace(s[0]) then TrimStart(s[1..]) else s }

  function TrimEnd(s: string): string { if s != "" && IsWhitespace(s[|s| - 1]) then TrimEnd(s[..|s| - 1]) else s }

  function Trim(s: string): string { TrimEnd(TrimStart(s)) }

  function ToCursor(s: string): Cursor {
    if s == "" then At(0) else if AllDigits(s) then At(ParseDigits(s)) else OtherText(s)
  }

  function DropOneSpace(s: string): string { if s != "" && s[0] == ' ' then s[1..] else s }

  function TsLine(f: Fields, line: string): Fields {
    if HasPrefix(line, "id:") then f.(id := Some(Trim(line[3..])))
    else if HasPrefix(line, "data:") then f.(data := Some(DropOneSpace(line[5..])))
    else f
  }

  function TsLines(lines: seq<string>): Fields {
    if lines == [] then Fields(None, None) else TsLine(TsLines(lines[..|lines| - 1]), lines[|lines| - 1])
  }

  function TsFrame(s: TsState, raw: string): TsState {
    if HasPrefix(raw, ":") then s
    else
      var f := TsLines(Split(raw, '\n'));
      if f.data.None? then s
      else
        var cursor := if f.id.Some? then ToCursor(f.id.value) else s.lastId;
        TsState(cursor, s.got + [Delivery(cursor, f.data.value)])
  }

  function TsFrames(s: TsState, raws: seq<string>): TsState
    decreases |raws|
  {
    if raws == [] then s else TsFrames(TsFrame(s, raws[0]), raws[1..])
  }

  lemma {:induction false} TsFramesAppend(s: TsState, a: seq<string>, b: seq<string>)
    ensures TsFrames(s, a + b) == TsFrames(TsFrames(s, a), b)
    decreases |a|
  {
    if a == [] {
      assert a + b == b;
    } else {
      assert (a + b)[1..] == a[1..] + b;
      TsFramesAppend(TsFrame(s, a[0]), a[1..], b);
    }
  }

  function Concat(chunks: seq<string>): string {
    if chunks == [] then "" else Concat(chunks[..|chunks| - 1]) + chunks[|chunks| - 1]
  }

  class TsClient {
    var lastId: Cursor
    var buf: string
    var got: seq<Delivery>

    constructor (from: Cursor)
      ensures lastId == from && buf == "" && got == []
    {
      lastId, buf, got := from, "", [];
    }

    function State(): TsState
      reads this
    {
      TsState(lastId, got)
    }

    /** One read: the buffer grows and every complete frame is taken out of it. */
    method Chunk(chunk: string)
      modifies this
      ensures State() == TsFrames(old(State()), Frames(old(buf) + chunk)) && buf == Rest(old(buf) + chunk)
    {
      buf := buf + chunk;
      var idx := Break(buf);
      while idx < |buf|
        invariant idx == Break(buf)
        invariant TsFrames(State(), Frames(buf)) == TsFrames(old(State()), Frames(old(buf) + chunk))
        invariant Rest(buf) == Rest(old(buf) + chunk)
        decreases |buf|
      {
        var raw := buf[..idx];
        FramesStep(buf);
        assert Frames(buf)[1..] == Frames(buf[idx + 2..]);
        Frame(raw);
        buf := buf[idx + 2..];
        idx := Break(buf);
      }
    }

    method Frame(raw: string)
      modifies this`lastId, this`got
      ensures State() == TsFrame(old(State()), raw)
    {
      if HasPrefix(raw, ":") {
        return;
      }
      var lines := Split(raw, '\n');
      var id, data := None, None;
      for i := 0 to |lines|
        invariant Fields(id, data) == TsLines(lines[..i])
      {
        assert lines[..i + 1][..i] == lines[..i];
        var line := lines[i];
        if HasPrefix(line, "id:") {
          id := Some(Trim(line[3..]));
        } else if HasPrefix(line, "data:") {
          data := Some(DropOneSpace(line[5..]));
        }
      }
      assert lines[..|lines|] == lines;
      if data.Some? {
        if id.Some? {
          lastId := ToCursor(id.value);
        }
        got := got + [Delivery(lastId, data.value)];
      }
    }

    /** One connection, read in whatever chunks the network makes of it: the outcome depends
        on the text alone. */
    method Connection(chunks: seq<string>)
      modifies this
      ensures State() == TsFrames(old(State()), Frames(Concat(chunks))) && buf == Rest(Concat(chunks))
    {
      buf := "";
      assert Frames("") == [];
      for i := 0 to |chunks|
        invariant State() == TsFrames(old(State()), Frames(Concat(chunks[..i]))) && buf == Rest(Concat(chunks[..i]))
      {
        var before := Concat(chunks[..i]);
        assert chunks[..i + 1][..i] == chunks[..i];
        DrainAnytime(before, chunks[i]);
        TsFramesAppend(old(State()), Frames(before), Frames(buf + chunks[i]));
        Chunk(chunks[i]);
      }
      assert chunks[..|chunks|] == chunks;
    }
  }

  // ── the Python client ────────────────────────────────────────────────────────

  function DropSpaces(s: string): string { if s != "" && s[0] == ' ' then DropSpaces(s[1..]) else s }

  function PyLine(data: Option<string>, line: string): Option<string> {
    if HasPrefix(line, "data:") then Some(DropSpaces(line[5..])) else data
  }

  function PyLines(lines: seq<string>): Option<string> {
    if lines == [] then None else PyLine(PyLines(lines[..|lines| - 1]), lines[|lines| - 1])
  }

  function PyFrame(raw: string): seq<string> {
    if HasPrefix(raw, ":") then []
    else match PyLines(Split(raw, '\n')) case None => [] case Some(data) => [data]
  }

  function PyFrames(raws: seq<string>): seq<string> {
    if raws == [] then [] else PyFrame(raws[0]) + PyFrames(raws[1..])
  }

  lemma PyFramesStep(raw: string, rest: seq<string>)
    ensures PyFrames([raw] + rest) == PyFrame(raw) + PyFrames(rest)
  {
    assert ([raw] + rest)[1..] == rest;
  }

  lemma {:induction false} PyFramesAppend(a: seq<string>, b: seq<string>)
    ensures PyFrames(a + b) == PyFrames(a) + PyFrames(b)
  {
    if a == [] {
      assert a + b == b;
    } else {
      assert (a + b)[1..] == a[1..] + b;
      PyFramesAppend(a[1..], b);
    }
  }

  /** The generator over one response, whatever its chunks. */
  method PySubscribe(chunks: seq<string>) returns (yielded: seq<string>)
    ensures yielded == PyFrames(Frames(Concat(chunks)))
  {
    yielded := [];
    var buf := "";
    assert Frames("") == [];
    for i := 0 to |chunks|
      invariant yielded == PyFrames(Frames(Concat(chunks[..i]))) && buf == Rest(Concat(chunks[..i]))
    {
      ghost var before := Concat(chunks[..i]);
      assert chunks[..i + 1][..i] == chunks[..i];
      DrainAnytime(before, chunks[i]);
      PyFramesAppend(Frames(before), Frames(buf + chunks[i]));
      var more;
      more, buf := PyDrain(buf + chunks[i]);
      yielded := yielded + more;
    }
    assert chunks[..|chunks|] == chunks;
  }

  /** The inner loop: every complete frame is split off the buffer. */
  method PyDrain(whole: string) returns (yielded: seq<string>, buf: string)
    ensures yielded == PyFrames(Frames(whole)) && buf == Rest(whole)
  {
    buf, yielded := whole, [];
    var idx := Break(buf);
    while idx < |buf|
      invariant idx == Break(buf)
      invariant yielded + PyFrames(Frames(buf)) == PyFrames(Frames(whole))
      invariant Rest(buf) == Rest(whole)
      decreases |buf|
    {
      var raw := buf[..idx];
      FramesStep(buf);
      PyFramesStep(raw, Frames(buf[idx + 2..]));
      Associate(yielded, PyFrame(raw), PyFrames(Frames(buf[idx + 2..])));
      var out := PyYields(raw);
      yielded := yielded + out;
      buf := buf[idx + 2..];
      idx := Break(buf);
    }
  }

  /** What one frame makes the generator yield. */
  method PyYields(raw: string) returns (out: seq<string>)
    ensures out == PyFrame(raw)
  {
    if HasPrefix(raw, ":") {
      return [];
    }
    var data := DataOf(Split(raw, '\n'));
    return if data.Some? then [data.value] else [];
  }

  method DataOf(lines: seq<string>) returns (data: Option<string>)
    ensures data == PyLines(lines)
  {
    data := None;
    for i := 0 to |lines|
      invariant data == PyLines(lines[..i])
    {
      assert lines[..i + 1][..i] == lines[..i];
      if HasPrefix(lines[i], "data:") {
        data := Some(DropSpaces(lines[i][5..]));
      }
    }
    assert lines[..|lines|] == lines;
  }

  // ── the round trip ───────────────────────────────────────────────────────────

  function SeqNos(items: seq<Item>, cursor: Cursor): Cursor {
    if items == [] then cursor else SeqNos(items[1..], if items[0].Event? then At(items[0].seqNo) else cursor)
  }

  /** The (id, data) pairs of a stream, in order. */
  function Pairs(items: seq<Item>): seq<Delivery> {
    if items == [] then []
    else (if items[0].Event? then [Delivery(At(items[0].seqNo), items[0].data)] else []) + Pairs(items[1..])
  }

  lemma TrimDigits(n: nat)
    ensures Trim(" " + Digits(n)) == Digits(n)
  {
    var d := Digits(n);
    assert (" " + d)[1..] == d;
    assert IsDigit(d[0]) && IsDigit(d[|d| - 1]);
    assert TrimStart(d) == d && TrimEnd(d) == d;
  }

  lemma CursorOfDigits(n: nat)
    ensures ToCursor(Digits(n)) == At(n)
  {
    DigitsRoundTrip(n);
  }

  lemma IdLineFields(f: Fields, n: nat)
    ensures TsLine(f, IdLine(n)) == f.(id := Some(Digits(n))) && PyLine(f.data, IdLine(n)) == f.data
  {
    assert IdLine(n)[..3] == "id:" && IdLine(n)[3..] == " " + Digits(n);
    assert IdLine(n)[0] == 'i';
    TrimDigits(n);
  }

  lemma TypeLineFields(f: Fields, eventType: string)
    ensures TsLine(f, TypeLine(eventType)) == f && PyLine(f.data, TypeLine(eventType)) == f.data
  {
    assert TypeLine(eventType)[0] == 'e';
  }

  lemma DataLineFields(f: Fields, data: string)
    requires data != "" && data[0] == '{'
    ensures TsLine(f, DataLine(data)) == f.(data := Some(data)) && PyLine(f.data, DataLine(data)) == Some(data)
  {
    assert DataLine(data)[0] == 'd';
    var spaced := " " + data;
    assert DataLine(data)[..5] == "data:" && DataLine(data)[5..] == spaced;
    assert spaced[0] == ' ' && spaced[1..] == data;
    assert DropSpaces(spaced) == DropSpaces(data) == data;
  }

  lemma RawSplits(item: Item)
    requires Sendable(item) && item.Event?
    ensures Split(Raw(item), '\n') == [IdLine(item.seqNo), TypeLine(item.eventType), DataLine(item.data)]
  {
    var a, b, c := IdLine(item.seqNo), TypeLine(item.eventType), DataLine(item.data);
    LinesOf(item);
    SplitFirst(a, b + ['\n'] + c, '\n');
    SplitFirst(b, c, '\n');
    SplitNone(c, '\n');
  }

  lemma ThreeLines(a: string, b: string, c: string)
    ensures TsLines([a, b, c]) == TsLine(TsLine(TsLine(Fields(None, None), a), b), c)
    ensures PyLines([a, b, c]) == PyLine(PyLine(PyLine(None, a), b), c)
  {
    assert [a, b, c][..2] == [a, b] && [a, b][..1] == [a] && [a][..0] == [];
    assert TsLines([a]) == TsLine(TsLines([]), a) && TsLines([a, b]) == TsLine(TsLines([a]), b);
    assert PyLines([a]) == PyLine(PyLines([]), a) && PyLines([a, b]) == PyLine(PyLines([a]), b);
  }

  lemma EventLines(item: Item)
    requires Sendable(item) && item.Event?
    ensures TsLines(Split(Raw(item), '\n')) == Fields(Some(Digits(item.seqNo)), Some(item.data))
    ensures PyLines(Split(Raw(item), '\n')) == Some(item.data)
  {
    var none := Fields(None, None);
    RawSplits(item);
    ThreeLines(IdLine(item.seqNo), TypeLine(item.eventType), DataLine(item.data));
    IdLineFields(none, item.seqNo);
    TypeLineFields(none.(id := Some(Digits(item.seqNo))), item.eventType);
    DataLineFields(none.(id := Some(Digits(item.seqNo))), item.data);
  }

  lemma FrameOf(s: TsState, raw: string, n: nat, data: string)
    requires raw != "" && raw[0] != ':'
    requires TsLines(Split(raw, '\n')) == Fields(Some(Digits(n)), Some(data)) && PyLines(Split(raw, '\n')) == Some(data)
    ensures TsFrame(s, raw) == TsState(At(n), s.got + [Delivery(At(n), data)]) && PyFrame(raw) == [data]
  {
    CursorOfDigits(n);
    assert raw[..1] != ":" by { assert raw[..1][0] == raw[0]; }
  }

  lemma OneItem(item: Item, cursor: Cursor)
    ensures Pairs([item]) == if item.Event? then [Delivery(At(item.seqNo), item.data)] else []
    ensures SeqNos([item], cursor) == if item.Event? then At(item.seqNo) else cursor
  {
    assert [item][1..] == [];
  }

  /** Each client reads back the one frame the server printed. */
  lemma FrameRoundTrip(item: Item, s: TsState)
    requires Sendable(item)
    ensures TsFrame(s, Raw(item)) == TsState(SeqNos([item], s.lastId), s.got + Pairs([item]))
    ensures PyFrame(Raw(item)) == if item.Event? then [item.data] else []
  {
    OneItem(item, s.lastId);
    if item.Event? {
      EventLines(item);
      StartsWithId(item);
      FrameOf(s, Raw(item), item.seqNo, item.data);
    } else {
      CommentSkipped(item.text, s);
      assert s.got + [] == s.got;
    }
  }

  lemma StartsWithId(item: Item)
    requires item.Event?
    ensures Raw(item) != "" && Raw(item)[0] == 'i'
  {
  }

  lemma CommentSkipped(text: string, s: TsState)
    ensures TsFrame(s, ":" + text) == s && PyFrame(":" + text) == []
  {
    assert (":" + text)[..1] == ":";
  }

  lemma PairsStep(items: seq<Item>, cursor: Cursor, got: seq<Delivery>)
    requires items != []
    ensures SeqNos(items, cursor) == SeqNos(items[1..], SeqNos([items[0]], cursor))
    ensures Pairs(items) == Pairs([items[0]]) + Pairs(items[1..])
    ensures got + Pairs(items) == got + Pairs([items[0]]) + Pairs(items[1..])
  {
    assert [items[0]][1..] == [];
  }

  lemma {:induction false} TsReadsItems(items: seq<Item>, s: TsState)
    requires AllSendable(items)
    ensures TsFrames(s, Raws(items)) == TsState(SeqNos(items, s.lastId), s.got + Pairs(items))
    decreases |items|
  {
    if items == [] {
      assert s.got + [] == s.got;
    } else {
      var raw := Raw(items[0]);
      assert items[0] in items;
      FrameRoundTrip(items[0], s);
      PairsStep(items, s.lastId, s.got);
      TsFramesStep(s, raw, Raws(items[1..]));
      TsReadsItems(items[1..], TsFrame(s, raw));
    }
  }

  lemma TsFramesStep(s: TsState, raw: string, rest: seq<string>)
    ensures TsFrames(s, [raw] + rest) == TsFrames(TsFrame(s, raw), rest)
  {
    assert ([raw] + rest)[1..] == rest;
  }

  function Datas(pairs: seq<Delivery>): seq<string> { if pairs == [] then [] else [pairs[0].data] + Datas(pairs[1..]) }

  lemma DatasStep(pairs: seq<Delivery>, rest: seq<Delivery>)
    requires |pairs| <= 1
    ensures Datas(pairs + rest) == Datas(pairs) + Datas(rest)
  {
    if pairs == [] {
      assert pairs + rest == rest;
    } else {
      assert (pairs + rest)[1..] == rest && pairs[1..] == [];
    }
  }

  lemma {:induction false} PyReadsItems(items: seq<Item>, s: TsState)
    requires AllSendable(items)
    ensures PyFrames(Raws(items)) == Datas(Pairs(items))
  {
    if items != [] {
      assert items[0] in items;
      FrameRoundTrip(items[0], s);
      PairsStep(items, s.lastId, []);
      DatasStep(Pairs([items[0]]), Pairs(items[1..]));
      PyFramesStep(Raw(items[0]), Raws(items[1..]));
      PyReadsItems(items[1..], s);
      OnePair(items[0]);
    }
  }

  lemma OnePair(item: Item)
    ensures Datas(Pairs([item])) == if item.Event? then [item.data] else []
  {
    assert [item][1..] == [];
    if item.Event? {
      var d := Delivery(At(item.seqNo), item.data);
      assert Pairs([item]) == [d] && [d][1..] == [];
    }
  }

  /** However the bytes of a stream are cut into chunks, and wherever it breaks off: the
      clients get exactly the pairs of the whole frames, in order; the frame that was cut
      short yields nothing and leaves the cursor at the last whole one. */
  lemma AnyChunking(chunks: seq<string>, items: seq<Item>, t: string, next: Item, s: TsState)
    requires AllSendable(items) && Sendable(next) && Unfinished(t, next)
    requires Concat(chunks) == PrintAll(items) + t
    ensures TsFrames(s, Frames(Concat(chunks))) == TsState(SeqNos(items, s.lastId), s.got + Pairs(items))
    ensures PyFrames(Frames(Concat(chunks))) == Datas(Pairs(items))
    ensures Rest(Concat(chunks)) == t
  {
    FramesOfStream(items, t, next);
    TsReadsItems(items, s);
    PyReadsItems(items, s);
  }
}
