/** The chat's event stream: the server's framing (chatHandler.ts) and the client's
    incremental parser (chat.ts), a subset of the WHATWG HTML Living Standard,
    section 9.2 "Server-sent events". */
module ChatStream {
  import opened Clarity
  import opened Json
  import opened Text

  // ---- Splitting ----

  /** The index of the first occurrence of `sep`, or the length of `s`. */
  function FindSub(s: string, sep: string): (i: nat)
    requires sep != []
    ensures i <= |s|
    ensures i < |s| ==> i + |sep| <= |s| && s[i..i + |sep|] == sep
  {
    if |s| < |sep| then |s|
    else if s[..|sep|] == sep then 0
    else
      var i := FindSub(s[1..], sep);
      assert i + 1 < |s| ==> s[1..][i..i + |sep|] == s[i + 1..i + 1 + |sep|];
      i + 1
  }

  /** `s.split(sep)` */
  function Split(s: string, sep: string): (parts: seq<string>)
    requires sep != []
    ensures parts != []
    decreases |s|
  {
    var i := FindSub(s, sep);
    if i == |s| then [s] else [s[..i]] + Split(s[i + |sep|..], sep)
  }

  function Last(parts: seq<string>): string
    requires parts != []
  {
    parts[|parts| - 1]
  }

  function Init(parts: seq<string>): seq<string>
    requires parts != []
  {
    parts[..|parts| - 1]
  }

  /** `sep` stands at index `i` of `s`. */
  predicate Occurs(s: string, sep: string, i: nat) {
    i + |sep| <= |s| && s[i..i + |sep|] == sep
  }

  lemma OccursInTail(s: string, sep: string, i: nat)
    requires i > 0 && s != []
    ensures Occurs(s[1..], sep, i - 1) <==> Occurs(s, sep, i)
  {
    if i + |sep| <= |s| {
      assert s[1..][i - 1..i - 1 + |sep|] == s[i..i + |sep|];
    }
  }

  /** FindSub finds the first occurrence, and nothing else. */
  lemma {:induction false} FindSubIsFirst(s: string, sep: string)
    requires sep != []
    ensures var i := FindSub(s, sep);
            (i < |s| ==> Occurs(s, sep, i)) && (forall j: nat :: j < i ==> !Occurs(s, sep, j))
  {
    if |s| >= |sep| && s[..|sep|] != sep {
      FindSubIsFirst(s[1..], sep);
      var i := FindSub(s, sep);
      forall j: nat | j < i
        ensures !Occurs(s, sep, j)
      {
        if j > 0 {
          OccursInTail(s, sep, j);
        } else {
          assert s[0..|sep|] == s[..|sep|];
        }
      }
    }
  }

  lemma FindSubFirst(s: string, sep: string, i: nat)
    requires sep != [] && Occurs(s, sep, i) && forall j: nat :: j < i ==> !Occurs(s, sep, j)
    ensures FindSub(s, sep) == i
  {
    FindSubIsFirst(s, sep);
    hide FindSub;
  }

  /** Text that arrives later never changes where the first separator is. */
  lemma FindSubExtends(a: string, b: string, sep: string)
    requires sep != [] && FindSub(a, sep) < |a|
    ensures FindSub(a + b, sep) == FindSub(a, sep)
  {
    var i := FindSub(a, sep);
    FindSubIsFirst(a, sep);
    forall j: nat | j <= i
      ensures Occurs(a + b, sep, j) <==> Occurs(a, sep, j)
    {
      assert (a + b)[j..j + |sep|] == a[j..j + |sep|];
    }
    FindSubFirst(a + b, sep, i);
  }

  /** Splitting in two goes: the complete parts so far stay, and only the last,
      incomplete one is taken up again. */
  lemma {:induction false} SplitInTwoGoes(a: string, b: string, sep: string)
    requires sep != []
    ensures Split(a + b, sep) == Init(Split(a, sep)) + Split(Last(Split(a, sep)) + b, sep)
    decreases |a|
  {
    hide Split, FindSub;
    var i := FindSub(a, sep);
    if i < |a| {
      var tail := a[i + |sep|..];
      SplitInTwoGoes(tail, b, sep);
      SplitExtends(a, b, sep);
      ConsParts(a[..i], Split(tail, sep), Split(Last(Split(tail, sep)) + b, sep));
    } else {
      NoSplit(a, sep);
    }
  }

  lemma NoSplit(a: string, sep: string)
    requires sep != [] && FindSub(a, sep) == |a|
    ensures Split(a, sep) == [a] && Init([a]) == []
  {
  }

  /** The first complete part of a text is a complete part of any longer text. */
  lemma SplitExtends(a: string, b: string, sep: string)
    requires sep != [] && FindSub(a, sep) < |a|
    ensures var i := FindSub(a, sep);
            && Split(a, sep) == [a[..i]] + Split(a[i + |sep|..], sep)
            && Split(a + b, sep) == [a[..i]] + Split(a[i + |sep|..] + b, sep)
  {
    hide Split, FindSub;
    var i := FindSub(a, sep);
    FindSubExtends(a, b, sep);
    SplitStep(a, sep);
    SplitStep(a + b, sep);
    CutInFirst(a, b, i, i + |sep|);
  }

  /** Cuts that lie within the first of two texts do not touch the second. */
  lemma CutInFirst(a: string, b: string, i: nat, j: nat)
    requires i <= j <= |a|
    ensures (a + b)[..i] == a[..i] && (a + b)[j..] == a[j..] + b
  {
  }

  lemma ConsParts(head: string, parts: seq<string>, more: seq<string>)
    requires parts != []
    ensures Init([head] + parts) == [head] + Init(parts) && Last([head] + parts) == Last(parts)
    ensures [head] + (Init(parts) + more) == Init([head] + parts) + more
  {
  }

  lemma SplitStep(s: string, sep: string)
    requires sep != [] && FindSub(s, sep) < |s|
    ensures Split(s, sep) == [s[..FindSub(s, sep)]] + Split(s[FindSub(s, sep) + |sep|..], sep)
  {
    hide FindSub;
  }

  function Join(parts: seq<string>, sep: string): string
    requires parts != []
  {
    if |parts| == 1 then parts[0] else parts[0] + sep + Join(parts[1..], sep)
  }

  lemma JoinStep(head: string, parts: seq<string>, sep: string)
    requires parts != []
    ensures Join([head] + parts, sep) == head + sep + Join(parts, sep)
  {
    assert ([head] + parts)[1..] == parts;
  }

  /** Splitting loses nothing, and leaves no separator inside a part. */
  lemma {:induction false} SplitIsExact(s: string, sep: string)
    requires sep != []
    ensures Join(Split(s, sep), sep) == s
    ensures forall k, j: nat :: 0 <= k < |Split(s, sep)| ==> !Occurs(Split(s, sep)[k], sep, j)
    decreases |s|
  {
    hide Split, FindSub, Occurs;
    var i := FindSub(s, sep);
    FindSubIsFirst(s, sep);
    if i < |s| {
      var tail := s[i + |sep|..];
      SplitStep(s, sep);
      SplitIsExact(tail, sep);
      JoinStep(s[..i], Split(tail, sep), sep);
      FirstPart(s, sep, i);
    } else {
      NoSplit(s, sep);
      NowhereIn(s, sep);
    }
  }

  lemma FirstPart(s: string, sep: string, i: nat)
    requires Occurs(s, sep, i) && forall j: nat :: j < i ==> !Occurs(s, sep, j)
    requires sep != []
    ensures s == s[..i] + sep + s[i + |sep|..]
    ensures forall j: nat :: !Occurs(s[..i], sep, j)
  {
    forall j: nat
      ensures !Occurs(s[..i], sep, j)
    {
      if j + |sep| <= i {
        assert s[..i][j..j + |sep|] == s[j..j + |sep|];
        assert !Occurs(s, sep, j);
      }
    }
  }

  lemma NowhereIn(s: string, sep: string)
    requires sep != [] && FindSub(s, sep) == |s|
    ensures forall j: nat :: !Occurs(s, sep, j)
  {
    FindSubIsFirst(s, sep);
    forall j: nat
      ensures !Occurs(s, sep, j)
    {
      if j + |sep| <= |s| {
        assert j < |s|;
      }
    }
  }

  // ---- Events and frames ----

  datatype Event = Delta(text: string) | Error(message: string) | Note(message: string) | Done

  function EventName(e: Event): string {
    match e
    case Delta(_) => "delta"
    case Error(_) => "error"
    case Note(_) => "note"
    case Done => "done"
  }

  function PayloadOf(e: Event): Payload {
    match e
    case Delta(text) => Member("text", text)
    case Error(message) => Member("message", message)
    case Note(message) => Member("message", message)
    case Done => Empty
  }

  function EventLine(e: Event): string {
    "event: " + EventName(e)
  }

  function DataLine(e: Event): string {
    "data: " + Stringify(PayloadOf(e))
  }

  function Body(e: Event): string {
    EventLine(e) + "\n" + DataLine(e)
  }

  function Frames(events: seq<Event>): string {
    if events == [] then "" else Body(events[0]) + "\n\n" + Frames(events[1..])
  }

  // ---- The client ----

  datatype Callback = OnDelta(text: string) | OnError(message: string) | OnDone

  const DEFAULT_ERROR := "AI agent error."

  function FirstWith(lines: seq<string>, prefix: string): Option<string> {
    if lines == [] then None
    else if prefix <= lines[0] then Some(lines[0])
    else FirstWith(lines[1..], prefix)
  }

  /** The line found is the first one with the prefix. */
  lemma {:induction false} FirstWithIsFirst(lines: seq<string>, prefix: string)
    ensures FirstWith(lines, prefix).None? <==> forall k :: 0 <= k < |lines| ==> !(prefix <= lines[k])
    ensures FirstWith(lines, prefix).Some? ==>
      exists k :: 0 <= k < |lines| && FirstWith(lines, prefix).value == lines[k] && prefix <= lines[k]
                  && forall j :: 0 <= j < k ==> !(prefix <= lines[j])
  {
    if lines != [] && !(prefix <= lines[0]) {
      var rest := lines[1..];
      FirstWithIsFirst(rest, prefix);
      if FirstWith(rest, prefix).Some? {
        var k :| 0 <= k < |rest| && FirstWith(rest, prefix).value == rest[k] && prefix <= rest[k]
                 && forall j :: 0 <= j < k ==> !(prefix <= rest[j]);
        assert lines[k + 1] == rest[k];
        assert forall j :: 0 <= j < k + 1 ==> !(prefix <= lines[j]) by {
          forall j | 0 < j < k + 1 ensures !(prefix <= lines[j]) { assert lines[j] == rest[j - 1]; }
        }
      } else {
        forall k | 0 < k < |lines| ensures !(prefix <= lines[k]) { assert lines[k] == rest[k - 1]; }
      }
    }
  }

  /** What the client looks at in a parsed value: its `text` and its `message`, when
      they are strings. */
  datatype Data = Data(text: Option<string>, message: Option<string>)

  /** A reader of JSON texts; None stands for a syntax error. What the client does
      with the stream is the same for every reader. */
  type Reader = string -> Option<Data>

  /** What one complete event block makes the client do. */
  function Handle(parse: Reader, raw: string): seq<Callback> {
    var lines := Split(raw, "\n");
    var eventLine, dataLine := FirstWith(lines, "event: "), FirstWith(lines, "data: ");
    if eventLine.None? || dataLine.None? then []
    else if |eventLine.value| < 7 || |dataLine.value| < 6 then []
    else
      var event := Trim(eventLine.value[7..]);
      match parse(dataLine.value[6..])
      case None => []
      case Some(data) => Fire(event, data)
  }

  function Fire(event: string, data: Data): seq<Callback> {
    if event == "delta" && data.text.Some? then [OnDelta(data.text.value)]
    else if event == "error" then
      [OnError(if data.message.Some? && data.message.value != "" then data.message.value else DEFAULT_ERROR)]
    else if event == "done" then [OnDone]
    else []
  }

  /** Which events do what: a delta without a text and everything unknown, notes
      included, is passed over; an error always shows something. */
  lemma FiredIsExact(event: string, data: Data)
    ensures Fire("delta", data) == if data.text.Some? then [OnDelta(data.text.value)] else []
    ensures Fire("error", data)
         == [OnError(if data.message.Some? && data.message.value != "" then data.message.value else "AI agent error.")]
    ensures Fire("done", data) == [OnDone]
    ensures event != "delta" && event != "error" && event != "done" ==> Fire(event, data) == []
  {
  }

  function HandleAll(parse: Reader, blocks: seq<string>): seq<Callback> {
    if blocks == [] then [] else Handle(parse, blocks[0]) + HandleAll(parse, blocks[1..])
  }

  /** What a whole text makes the client do: every complete block is handled, an
      unfinished last one is not. */
  function Delivered(parse: Reader, text: string): seq<Callback> {
    HandleAll(parse, Init(Split(text, "\n\n")))
  }

  function Concat(chunks: seq<string>): string {
    if chunks == [] then "" else Concat(chunks[..|chunks| - 1]) + chunks[|chunks| - 1]
  }

  lemma HandleAllStep(parse: Reader, block: string, rest: seq<string>)
    ensures HandleAll(parse, [block] + rest) == Handle(parse, block) + HandleAll(parse, rest)
  {
    hide Handle;
    assert ([block] + rest)[1..] == rest;
  }

  lemma {:induction false} HandleAllConcat(parse: Reader, a: seq<string>, b: seq<string>)
    ensures HandleAll(parse, a + b) == HandleAll(parse, a) + HandleAll(parse, b)
  {
    hide Handle;
    if a == [] {
      assert a + b == b;
    } else {
      hide HandleAll;
      var block, rest := a[0], a[1..];
      HandleAllConcat(parse, rest, b);
      HandleAllStep(parse, block, rest);
      HandleAllStep(parse, block, rest + b);
      assert a == [block] + rest;
      Associate([block], rest, b);
      Associate(Handle(parse, block), HandleAll(parse, rest), HandleAll(parse, b));
    }
  }

  /** The inner loop of the client: fires the callbacks of each complete block. */
  method FireAll(parse: Reader, events: seq<string>, before: seq<Callback>) returns (delivered: seq<Callback>)
    ensures delivered == before + HandleAll(parse, events)
  {
    hide Handle, HandleAll;
    NothingReceived(parse);
    delivered := before;
    var k := 0;
    while k < |events|
      invariant 0 <= k <= |events|
      invariant delivered + HandleAll(parse, events[k..]) == before + HandleAll(parse, events)
    {
      assert events[k..] == [events[k]] + events[k + 1..];
      HandleAllStep(parse, events[k], events[k + 1..]);
      Associate(delivered, Handle(parse, events[k]), HandleAll(parse, events[k + 1..]));
      delivered := delivered + Handle(parse, events[k]);
      k := k + 1;
    }
    assert events[k..] == [];
  }

  lemma InitOfConcat(done: seq<string>, parts: seq<string>)
    requires parts != []
    ensures Init(done + parts) == done + Init(parts) && Last(done + parts) == Last(parts)
  {
  }

  /** One more chunk: what is delivered for it, given the unfinished rest so far. */
  lemma DeliveredStep(parse: Reader, text: string, chunk: string)
    ensures var parts := Split(Last(Split(text, "\n\n")) + chunk, "\n\n");
            && Delivered(parse, text + chunk) == Delivered(parse, text) + HandleAll(parse, Init(parts))
            && Last(Split(text + chunk, "\n\n")) == Last(parts)
  {
    hide Split, HandleAll, Init, Last;
    var done := Init(Split(text, "\n\n"));
    var parts := Split(Last(Split(text, "\n\n")) + chunk, "\n\n");
    SplitInTwoGoes(text, chunk, "\n\n");
    InitOfConcat(done, parts);
    HandleAllConcat(parse, done, Init(parts));
  }

  /** The client's read loop, over the decoded chunks in the order they arrive. It
      does what it would do with the whole text at once, whatever its reader of JSON
      accepts: how the text is cut into chunks makes no difference. */
  method StreamChat(parse: Reader, chunks: seq<string>) returns (delivered: seq<Callback>)
    ensures delivered == Delivered(parse, Concat(chunks))
  {
    hide Split, HandleAll;
    var buffer := "";
    delivered := [];
    NothingReceived(parse);
    var n := 0;
    while n < |chunks|
      invariant 0 <= n <= |chunks|
      invariant delivered == Delivered(parse, Concat(chunks[..n]))
      invariant buffer == Last(Split(Concat(chunks[..n]), "\n\n"))
    {
      ghost var text := Concat(chunks[..n]);
      assert chunks[..n + 1][..n] == chunks[..n];
      assert Concat(chunks[..n + 1]) == text + chunks[n];
      DeliveredStep(parse, text, chunks[n]);

      buffer := buffer + chunks[n];
      var events := Split(buffer, "\n\n");
      buffer := Last(events);
      delivered := FireAll(parse, Init(events), delivered);
      n := n + 1;
    }
    assert chunks[..n] == chunks;
  }

  lemma NothingReceived(parse: Reader)
    ensures Split("", "\n\n") == [""] && HandleAll(parse, []) == []
  {
  }

  /** A connection that breaks off has delivered a prefix of what the whole stream delivers. */
  lemma PrefixDeliversPrefix(parse: Reader, received: string, missing: string)
    ensures Delivered(parse, received) <= Delivered(parse, received + missing)
  {
    DeliveredStep(parse, received, missing);
    hide Delivered, HandleAll, Split;
  }

  // ---- Server to client ----

  /** What the client owes the user for one event of the server. */
  function CallbacksOf(e: Event): seq<Callback> {
    match e
    case Delta(text) => [OnDelta(text)]
    case Error(message) => [OnError(if message != "" then message else DEFAULT_ERROR)]
    case Note(_) => []
    case Done => [OnDone]
  }

  /** The members of the server's payloads as the client sees them. */
  function View(p: Payload): Data {
    match p
    case Empty => Data(None, None)
    case Member(key, text) =>
      Data(if key == "text" then Some(text) else None, if key == "message" then Some(text) else None)
  }

  /** The reader gets back what the server's JSON.stringify wrote. */
  ghost predicate ReadsBack(parse: Reader) {
    forall p: Payload :: parse(Stringify(p)) == Some(View(p))
  }

  function ReadJson(s: string): Option<Data> {
    match Parse(s)
    case Some(p) => Some(View(p))
    case None => None
  }

  /** JSON.parse is such a reader. */
  lemma JsonReadsBack()
    ensures ReadsBack(ReadJson)
  {
    hide Parse, Stringify, View;
    forall p: Payload ensures ReadJson(Stringify(p)) == Some(View(p)) {
      ParseStringify(p);
    }
  }

  function AllCallbacks(events: seq<Event>): seq<Callback> {
    if events == [] then [] else CallbacksOf(events[0]) + AllCallbacks(events[1..])
  }

  lemma LinesArePrintable(e: Event)
    ensures Printable(EventLine(e)) && Printable(DataLine(e)) && DataLine(e) != ""
  {
    hide Stringify, Printable;
    StringifyIsPrintable(PayloadOf(e));
    NamesArePrintable(e);
    PrintableConcat("event: ", EventName(e));
    PrintableConcat("data: ", Stringify(PayloadOf(e)));
  }

  lemma NamesArePrintable(e: Event)
    ensures Printable(EventName(e)) && Printable("event: ") && Printable("data: ")
  {
  }

  lemma PrintableConcat(a: string, b: string)
    requires Printable(a) && Printable(b)
    ensures Printable(a + b)
  {
  }

  /** A text of two printable lines has exactly these two lines. */
  lemma TwoLines(first: string, second: string)
    requires Printable(first) && Printable(second)
    ensures Split(first + "\n" + second, "\n") == [first, second]
  {
    var body := first + "\n" + second;
    forall j: nat | j < |first|
      ensures !Occurs(body, "\n", j)
    {
      assert body[j..j + 1][0] == first[j];
    }
    assert body[|first|..|first| + 1] == "\n";
    FindSubFirst(body, "\n", |first|);
    assert body[..|first|] == first && body[|first| + 1..] == second;
    NoSeparator(second);
    SplitStep(body, "\n");
  }

  /** The first blank line after two printable lines is the one that ends their block. */
  lemma BlockEnd(first: string, second: string, rest: string)
    requires Printable(first) && Printable(second) && second != ""
    ensures FindSub(first + "\n" + second + "\n\n" + rest, "\n\n") == |first| + 1 + |second|
  {
    var text := first + "\n" + second + "\n\n" + rest;
    var end := |first| + 1 + |second|;
    assert text[end..end + 2] == "\n\n";
    forall j: nat | j < end
      ensures !Occurs(text, "\n\n", j)
    {
      assert text[j..j + 2][0] == text[j] && text[j..j + 2][1] == text[j + 1];
      if j == |first| {
        assert text[j + 1] == second[0];
      } else {
        assert text[j] == if j < |first| then first[j] else second[j - |first| - 1];
      }
    }
    FindSubFirst(text, "\n\n", end);
  }

  lemma NoSeparator(s: string)
    requires Printable(s)
    ensures Split(s, "\n") == [s]
  {
    FindSubIsFirst(s, "\n");
    forall j: nat
      ensures !Occurs(s, "\n", j)
    {
      if j + 1 <= |s| {
        assert s[j..j + 1][0] == s[j];
      }
    }
  }

  lemma HandleBody(parse: Reader, e: Event)
    requires ReadsBack(parse)
    ensures Handle(parse, Body(e)) == CallbacksOf(e)
  {
    hide Stringify, Trim, Split, FirstWith, EventLine, DataLine, Handle, EventName, Fire, CallbacksOf, PayloadOf, View;
    LinesArePrintable(e);
    TwoLines(EventLine(e), DataLine(e));
    FindLines(e);
    NameIsTrimmed(e);
    HandleLines(parse, Body(e), EventLine(e), DataLine(e), EventName(e), View(PayloadOf(e)));
    FireEvent(e);
  }

  lemma FireEvent(e: Event)
    ensures Fire(EventName(e), View(PayloadOf(e))) == CallbacksOf(e)
  {
  }

  lemma HandleLines(parse: Reader, raw: string, eventLine: string, dataLine: string, name: string, data: Data)
    requires Split(raw, "\n") == [eventLine, dataLine]
    requires FirstWith([eventLine, dataLine], "event: ") == Some(eventLine)
    requires FirstWith([eventLine, dataLine], "data: ") == Some(dataLine)
    requires |eventLine| >= 7 && |dataLine| >= 6
    requires Trim(eventLine[7..]) == name && parse(dataLine[6..]) == Some(data)
    ensures Handle(parse, raw) == Fire(name, data)
  {
    hide Split, FirstWith, Trim, Fire;
  }

  /** What any complete block makes the client do: nothing without an event line or a
      data line or with data that is no JSON; otherwise what its first lines of the two
      kinds say. */
  lemma HandleIsExact(parse: Reader, raw: string)
    ensures var lines := Split(raw, "\n");
            var eventLine, dataLine := FirstWith(lines, "event: "), FirstWith(lines, "data: ");
            && (eventLine.None? || dataLine.None? ==> Handle(parse, raw) == [])
            && (eventLine.Some? && dataLine.Some? ==>
                  && "event: " <= eventLine.value && "data: " <= dataLine.value
                  && Handle(parse, raw) ==
                       match parse(dataLine.value[6..])
                       case None => []
                       case Some(data) => Fire(Trim(eventLine.value[7..]), data))
  {
    hide Split, FirstWith, Trim, Fire;
    FirstWithIsFirst(Split(raw, "\n"), "event: ");
    FirstWithIsFirst(Split(raw, "\n"), "data: ");
  }

  lemma NameIsTrimmed(e: Event)
    ensures Trim(EventName(e)) == EventName(e)
  {
    TrimNothing(EventName(e));
  }

  lemma FindLines(e: Event)
    ensures FirstWith([EventLine(e), DataLine(e)], "event: ") == Some(EventLine(e))
    ensures FirstWith([EventLine(e), DataLine(e)], "data: ") == Some(DataLine(e))
    ensures |EventLine(e)| >= 7 && |DataLine(e)| >= 6
    ensures EventLine(e)[7..] == EventName(e) && DataLine(e)[6..] == Stringify(PayloadOf(e))
  {
    hide Stringify, EventName;
    var lines := [EventLine(e), DataLine(e)];
    assert lines[1..] == [DataLine(e)];
    assert EventLine(e)[0] == 'e';
    assert "data: "[0] == 'd';
    assert !("data: " <= EventLine(e));
  }

  /** Framing, then parsing, is the identity on events: the client delivers exactly
      the events the server framed, once each and in order. */
  lemma {:induction false} StreamRoundTrip(parse: Reader, events: seq<Event>)
    requires ReadsBack(parse)
    ensures Delivered(parse, Frames(events)) == AllCallbacks(events)
    ensures Last(Split(Frames(events), "\n\n")) == ""
  {
    hide Split, Handle, Body, CallbacksOf, ReadsBack;
    if events != [] {
      var e, rest := events[0], Frames(events[1..]);
      BlockOfEvent(e, rest);
      DeliveredBlock(parse, Body(e) + "\n\n" + rest, Body(e), rest);
      HandleBody(parse, e);
      StreamRoundTrip(parse, events[1..]);
      hide Delivered;
    } else {
      NothingReceived(parse);
    }
  }

  lemma DeliveredBlock(parse: Reader, text: string, block: string, rest: string)
    requires Split(text, "\n\n") == [block] + Split(rest, "\n\n")
    ensures Delivered(parse, text) == Handle(parse, block) + Delivered(parse, rest)
    ensures Last(Split(text, "\n\n")) == Last(Split(rest, "\n\n"))
  {
    hide Split, Handle, HandleAll;
    var parts := Split(rest, "\n\n");
    ConsParts(block, parts, []);
    HandleAllStep(parse, block, Init(parts));
  }

  lemma BlockOfEvent(e: Event, rest: string)
    ensures Split(Body(e) + "\n\n" + rest, "\n\n") == [Body(e)] + Split(rest, "\n\n")
  {
    LinesArePrintable(e);
    BlockEnd(EventLine(e), DataLine(e), rest);
    hide EventLine, DataLine, FindSub;
    var text := Body(e) + "\n\n" + rest;
    var i := |Body(e)|;
    SplitStep(text, "\n\n");
    assert text[..i] == Body(e) && text[i + 2..] == rest;
    hide Split;
  }

  // ---- The server ----

  /** The response the handler writes to. */
  class Sink {
    var written: string
    var ended: bool

    constructor ()
      ensures written == "" && !ended
    {
      written, ended := "", false;
    }

    method Write(chunk: string)
      requires !ended
      modifies this
      ensures written == old(written) + chunk && !ended
    {
      written := written + chunk;
    }

    method End()
      modifies this
      ensures ended && written == old(written)
    {
      ended := true;
    }
  }

  /** What the model stream emits before it finishes. */
  datatype Emission = Text(delta: string) | StreamError(message: string)

  /** The handler's message when it has no key for the model. */
  const NOT_CONFIGURED := "not configured"

  function ContextNote(reason: string): Event {
    Note("Could not load live on-chain context: " + reason)
  }

  function EmissionEvent(e: Emission): Event {
    match e
    case Text(delta) => Delta(delta)
    case StreamError(message) => Error(message)
  }

  function EmittedEvents(emissions: seq<Emission>): seq<Event> {
    if emissions == [] then []
    else [EmissionEvent(emissions[0])] + EmittedEvents(emissions[1..])
  }

  /** The events of one reply: a note if the chain context could not be read, the
      model's output, and either the end marker or the error that ended it. */
  function ReplyEvents(configured: bool, contextError: Option<string>, emissions: seq<Emission>, failure: Option<string>): seq<Event> {
    if !configured then [Error(NOT_CONFIGURED)]
    else
      (if contextError.Some? then [ContextNote(contextError.value)] else [])
      + EmittedEvents(emissions)
      + [if failure.Some? then Error(failure.value) else Done]
  }

  /** What the user must see for one emission of the model. */
  function Shown(e: Emission): Callback {
    match e
    case Text(delta) => OnDelta(delta)
    case StreamError(message) => OnError(if message != "" then message else DEFAULT_ERROR)
  }

  /** What a reply must look like to the user: one error if the server is not
      configured; otherwise each emission in its place and, at the very end, the error
      that ended the reply or, without one, its only end marker. */
  ghost predicate FaithfulReply(delivered: seq<Callback>, configured: bool, emissions: seq<Emission>, failure: Option<string>) {
    if !configured then |delivered| == 1 && delivered[0].OnError? && delivered[0].message != ""
    else
      && |delivered| == |emissions| + 1
      && (forall k :: 0 <= k < |emissions| ==> delivered[k] == Shown(emissions[k]))
      && (failure.None? ==> delivered[|emissions|] == OnDone)
      && (failure.Some? ==>
            delivered[|emissions|] == OnError(if failure.value != "" then failure.value else DEFAULT_ERROR))
  }

  lemma {:induction false} AllCallbacksConcat(a: seq<Event>, b: seq<Event>)
    ensures AllCallbacks(a + b) == AllCallbacks(a) + AllCallbacks(b)
  {
    hide CallbacksOf;
    if a == [] {
      assert a + b == b;
    } else {
      AllCallbacksConcat(a[1..], b);
      assert (a + b)[1..] == a[1..] + b && (a + b)[0] == a[0];
      Associate(CallbacksOf(a[0]), AllCallbacks(a[1..]), AllCallbacks(b));
    }
  }

  lemma OneEvent(e: Event)
    ensures AllCallbacks([e]) == CallbacksOf(e)
  {
    assert [e][1..] == [];
  }

  lemma {:induction false} EmissionsShown(emissions: seq<Emission>)
    ensures var shown := AllCallbacks(EmittedEvents(emissions));
            |shown| == |emissions| && forall k :: 0 <= k < |emissions| ==> shown[k] == Shown(emissions[k])
  {
    if emissions != [] {
      var e, rest := EmissionEvent(emissions[0]), EmittedEvents(emissions[1..]);
      EmissionsShown(emissions[1..]);
      AllCallbacksConcat([e], rest);
      OneEvent(e);
    }
  }

  lemma ReplyIsFaithful(configured: bool, contextError: Option<string>, emissions: seq<Emission>, failure: Option<string>)
    ensures FaithfulReply(AllCallbacks(ReplyEvents(configured, contextError, emissions, failure)), configured, emissions, failure)
  {
    if !configured {
      OneEvent(Error(NOT_CONFIGURED));
    } else {
      hide AllCallbacks, EmittedEvents;
      var last := if failure.Some? then Error(failure.value) else Done;
      var note := if contextError.Some? then [ContextNote(contextError.value)] else [];
      EmissionsShown(emissions);
      OneEvent(last);
      AllCallbacksConcat(note + EmittedEvents(emissions), [last]);
      AllCallbacksConcat(note, EmittedEvents(emissions));
      NoteIsSilent(note);
    }
  }

  lemma ReplyIsRead(configured: bool, contextError: Option<string>, emissions: seq<Emission>, failure: Option<string>)
    ensures var text := Frames(ReplyEvents(configured, contextError, emissions, failure));
            forall parse :: ReadsBack(parse) ==> FaithfulReply(Delivered(parse, text), configured, emissions, failure)
  {
    hide *;
    ReplyIsFaithful(configured, contextError, emissions, failure);
    forall parse | ReadsBack(parse)
      ensures FaithfulReply(Delivered(parse, Frames(ReplyEvents(configured, contextError, emissions, failure))),
                            configured, emissions, failure)
    {
      StreamRoundTrip(parse, ReplyEvents(configured, contextError, emissions, failure));
    }
  }

  lemma ReplyStartsWithNote(contextError: Option<string>, emissions: seq<Emission>, failure: Option<string>)
    ensures contextError.Some? ==>
      Frames([Note("Could not load live on-chain context: " + contextError.value)])
      <= Frames(ReplyEvents(true, contextError, emissions, failure))
  {
    if contextError.Some? {
      hide Frames, EmittedEvents;
      var note := [ContextNote(contextError.value)];
      var rest := EmittedEvents(emissions) + [if failure.Some? then Error(failure.value) else Done];
      Associate(note, EmittedEvents(emissions), [if failure.Some? then Error(failure.value) else Done]);
      FramesConcat(note, rest);
    }
  }

  lemma DoneIffComplete(delivered: seq<Callback>, configured: bool, emissions: seq<Emission>, failure: Option<string>)
    requires FaithfulReply(delivered, configured, emissions, failure)
    ensures OnDone in delivered <==> configured && failure.None?
    ensures forall k :: 0 <= k < |delivered| - 1 ==> delivered[k] != OnDone
  {
    if configured {
      assert delivered[|emissions|] in delivered;
    }
  }

  lemma NoteIsSilent(note: seq<Event>)
    requires note == [] || (|note| == 1 && note[0].Note?)
    ensures AllCallbacks(note) == []
  {
    if note != [] {
      OneEvent(note[0]);
      assert note == [note[0]];
    }
  }

  lemma {:induction false} FramesConcat(a: seq<Event>, b: seq<Event>)
    ensures Frames(a + b) == Frames(a) + Frames(b)
  {
    hide Body;
    if a == [] {
      assert a + b == b;
    } else {
      FramesConcat(a[1..], b);
      assert (a + b)[1..] == a[1..] + b;
      var block := Body(a[0]) + "\n\n";
      assert block + (Frames(a[1..]) + Frames(b)) == (block + Frames(a[1..])) + Frames(b);
    }
  }

  lemma FrameText(e: Event)
    ensures Frames([e]) == "event: " + EventName(e) + "\ndata: " + Stringify(PayloadOf(e)) + "\n\n"
  {
    hide Stringify, EventName;
    var name, data := EventName(e), Stringify(PayloadOf(e));
    assert "\ndata: " == "\n" + "data: ";
    assert Body(e) == "event: " + name + "\ndata: " + data;
    assert Frames([e]) == Body(e) + "\n\n" + "";
  }

  /** One event of this name with this data on the wire. */
  function Wire(name: string, data: string): string {
    "event: " + name + "\ndata: " + data + "\n\n"
  }

  /** The text of each kind of event. */
  lemma WireFormat(text: string)
    ensures Frames([Delta(text)]) == Wire("delta", "{\"" + "text" + "\":\"" + Escaped(text) + "\"}")
    ensures Frames([Error(text)]) == Wire("error", "{\"" + "message" + "\":\"" + Escaped(text) + "\"}")
    ensures Frames([Note(text)]) == Wire("note", "{\"" + "message" + "\":\"" + Escaped(text) + "\"}")
    ensures Frames([Done]) == Wire("done", "{}")
  {
    hide Escaped, Frames;
    FrameText(Delta(text));
    FrameText(Error(text));
    FrameText(Note(text));
    FrameText(Done);
    PlainKeys();
  }

  /** The names of the members need no escapes. */
  lemma PlainKeys()
    ensures Escaped("text") == "text" && Escaped("message") == "message"
  {
    Plain("text");
    Plain("message");
  }

  lemma {:induction false} Plain(s: string)
    requires forall i :: 0 <= i < |s| ==> 'a' <= s[i] <= 'z'
    ensures Escaped(s) == s
  {
    if s != [] {
      Plain(s[1..]);
      assert s == [s[0]] + s[1..];
    }
  }

  method Send(sink: Sink, e: Event)
    requires !sink.ended
    modifies sink
    ensures !sink.ended && sink.written == old(sink.written) + Frames([e])
  {
    hide Stringify, EventName;
    sink.Write("event: " + EventName(e) + "\ndata: " + Stringify(PayloadOf(e)) + "\n\n");
    FrameText(e);
  }

  lemma NoFrames()
    ensures Frames([]) == ""
  {
  }

  /** The handler: the response is the framing of the reply's events, and is always ended. */
  method StreamReply(
    sink: Sink, configured: bool, contextError: Option<string>, emissions: seq<Emission>, failure: Option<string>)
    requires !sink.ended && sink.written == ""
    modifies sink
    ensures sink.ended && sink.written == Frames(ReplyEvents(configured, contextError, emissions, failure))
    ensures forall parse :: ReadsBack(parse) ==> FaithfulReply(Delivered(parse, sink.written), configured, emissions, failure)
    ensures configured && contextError.Some? ==>
      Frames([Note("Could not load live on-chain context: " + contextError.value)]) <= sink.written
  {
    hide Body, Frames, ContextNote, EmissionEvent, ReadsBack, Delivered, FaithfulReply;
    assert Frames([]) == "" by { NoFrames(); }
    if !configured {
      Send(sink, Error(NOT_CONFIGURED));
      assert sink.written == Frames([Error(NOT_CONFIGURED)]);
      sink.End();
      ReplyIsRead(configured, contextError, emissions, failure);
      return;
    }
    ghost var sent: seq<Event> := [];
    if contextError.Some? {
      Send(sink, ContextNote(contextError.value));
      sent := [ContextNote(contextError.value)];
    }
    var n := 0;
    ghost var prefix := sent;
    while n < |emissions|
      invariant 0 <= n <= |emissions|
      invariant !sink.ended && sink.written == Frames(sent)
      invariant sent + EmittedEvents(emissions[n..]) == prefix + EmittedEvents(emissions)
    {
      var e := EmissionEvent(emissions[n]);
      Send(sink, e);
      FramesConcat(sent, [e]);
      assert emissions[n..][1..] == emissions[n + 1..];
      assert sent + ([e] + EmittedEvents(emissions[n + 1..])) == sent + [e] + EmittedEvents(emissions[n + 1..]);
      sent := sent + [e];
      n := n + 1;
    }
    var last := if failure.Some? then Error(failure.value) else Done;
    Send(sink, last);
    FramesConcat(sent, [last]);
    assert sent == prefix + EmittedEvents(emissions) by { assert emissions[n..] == []; }
    assert sent + [last] == ReplyEvents(configured, contextError, emissions, failure);
    sink.End();
    ReplyIsRead(configured, contextError, emissions, failure);
    ReplyStartsWithNote(contextError, emissions, failure);
  }

  /** End to end: whatever the model wrote and however the network cuts the response
      up, the user sees exactly the reply; it is marked as done exactly if nothing failed. */
  method ServeAndRead(
    parse: Reader, cut: string -> seq<string>,
    configured: bool, contextError: Option<string>, emissions: seq<Emission>, failure: Option<string>)
    returns (delivered: seq<Callback>)
    requires ReadsBack(parse) && forall s :: Concat(cut(s)) == s
    ensures FaithfulReply(delivered, configured, emissions, failure)
    ensures OnDone in delivered <==> configured && failure.None?
  {
    hide ReadsBack, Concat, Delivered, Frames, AllCallbacks, ReplyEvents, FaithfulReply;
    var sink := new Sink();
    StreamReply(sink, configured, contextError, emissions, failure);
    delivered := StreamChat(parse, cut(sink.written));
    assert Concat(cut(sink.written)) == sink.written;
    StreamRoundTrip(parse, ReplyEvents(configured, contextError, emissions, failure));
    ReplyIsFaithful(configured, contextError, emissions, failure);
    DoneIffComplete(delivered, configured, emissions, failure);
  }
}
