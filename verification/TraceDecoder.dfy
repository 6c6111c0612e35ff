/**
 The bounded runtime trace: enter/exit lines followed by one END marker.
 The decoder is a stack automaton; the property proved of it is that it calls a
 trace COMPLETE exactly when the lines print a forest of call frames.
 */
module TraceDecoder {
  import opened Prelude

  /** How Python's int() reads a token: base 16 for offsets, base 10 for marker fields. */
  datatype Numerals = Numerals(hex: string -> Option<int>, dec: string -> Option<int>)

  datatype Event = Enter(offset: int) | Exit(offset: int) | BadShape | BadOffset

  datatype Marker = Marker(enters: int, exits: int, failed: int)

  datatype TraceError =
    | EndMarkerMissing
    | MalformedEvent
    | MalformedOffset
    | UnmappedFunctionOffset
    | ExitStackMismatch
    | UnclosedFrames
    | EventCountMismatch
    | TraceWriteFailure
    | EndMarkerMalformed
    | EnterExitCountMismatch

  datatype Decoded = Decoded(
    errors: set<TraceError>,
    enters: nat,
    exits: nat,
    entered: map<int, nat>,
    edges: map<(int, int), nat>)
  {
    predicate Complete() { errors == {} }
  }

  // ---------- reading one line ----------

  predicate IsSpace(c: char) {
    c == ' ' || '\t' <= c <= '\r' || '\U{1C}' <= c <= '\U{1F}'
  }

  /** str.split() without a separator: maximal runs of non-space characters. */
  function Split(line: string): seq<string> {
    SplitFrom(line, "")
  }

  function SplitFrom(line: string, word: string): seq<string>
    decreases |line|
  {
    if line == "" then (if word == "" then [] else [word])
    else if IsSpace(line[0]) then (if word == "" then [] else [word]) + SplitFrom(line[1..], "")
    else SplitFrom(line[1..], word + [line[0]])
  }

  function ReadEvent(num: Numerals, line: string): Event {
    var parts := Split(line);
    if |parts| != 3 || (parts[0] != "E" && parts[0] != "X") then BadShape
    else if num.hex(parts[1]).None? || num.hex(parts[2]).None? then BadOffset
    else if parts[0] == "E" then Enter(num.hex(parts[1]).value)
    else Exit(num.hex(parts[1]).value)
  }

  function ReadEvents(num: Numerals, lines: seq<string>): (events: seq<Event>)
    ensures |events| == |lines|
    ensures forall k :: 0 <= k < |lines| ==> events[k] == ReadEvent(num, lines[k])
  {
    seq(|lines|, k requires 0 <= k < |lines| => ReadEvent(num, lines[k]))
  }

  function ReadMarker(num: Numerals, line: string): Option<Marker> {
    var parts := Split(line);
    if |parts| != 4 || parts[0] != "END" then None
    else
      match (num.dec(parts[1]), num.dec(parts[2]), num.dec(parts[3]))
      case (Some(a), Some(b), Some(c)) => Some(Marker(a, b, c))
      case _ => None
  }

  predicate HasEndPrefix(line: string) {
    "END " <= line
  }

  // ---------- the stack automaton ----------

  datatype Scan = Scan(
    stack: seq<int>,
    entered: map<int, nat>,
    edges: map<(int, int), nat>,
    enters: nat,
    exits: nat,
    errors: set<TraceError>)

  /** The state before the first event: only a missing END prefix is known so far. */
  function Start(lines: seq<string>): Scan {
    Scan([], map[], map[], 0, 0,
         if lines == [] || !HasEndPrefix(lines[|lines| - 1]) then {EndMarkerMissing} else {})
  }

  function Flag(errors: set<TraceError>, raised: bool, error: TraceError): set<TraceError> {
    if raised then errors + {error} else errors
  }

  function Step(known: set<int>, s: Scan, event: Event): Scan {
    match event
    case BadShape => s.(errors := s.errors + {MalformedEvent})
    case BadOffset => s.(errors := s.errors + {MalformedOffset})
    case Enter(o) =>
      s.(stack := s.stack + [o],
         entered := Bump(s.entered, o),
         edges := if s.stack == [] then s.edges else Bump(s.edges, (s.stack[|s.stack| - 1], o)),
         enters := s.enters + 1,
         errors := Flag(s.errors, o !in known, UnmappedFunctionOffset))
    case Exit(o) =>
      var n := |s.stack|;
      s.(stack := if n == 0 then [] else s.stack[..n - 1],
         exits := s.exits + 1,
         errors := Flag(Flag(s.errors, o !in known, UnmappedFunctionOffset),
                        n == 0 || s.stack[n - 1] != o, ExitStackMismatch))
  }

  function ScanFrom(known: set<int>, s: Scan, events: seq<Event>): Scan
    decreases |events|
  {
    if events == [] then s else ScanFrom(known, Step(known, s, events[0]), events[1..])
  }

  lemma {:induction false} ScanNone(known: set<int>, s: Scan)
    ensures ScanFrom(known, s, []) == s
  {
  }

  lemma {:induction false} ScanOne(known: set<int>, s: Scan, events: seq<Event>, i: nat)
    requires i < |events|
    ensures ScanFrom(known, s, events[i..]) == ScanFrom(known, Step(known, s, events[i]), events[i + 1..])
  {
    assert events[i..][0] == events[i] && events[i..][1..] == events[i + 1..];
  }

  /** What reading the END line adds, given the counts of the event lines. */
  function MarkerErrors(num: Numerals, lines: seq<string>, enters: nat, exits: nat): set<TraceError> {
    if lines == [] then {EndMarkerMalformed}
    else
      match ReadMarker(num, lines[|lines| - 1])
      case None => {EndMarkerMalformed}
      case Some(m) =>
        (if m.enters != enters || m.exits != exits then {EventCountMismatch} else {}) +
        (if m.failed != 0 then {TraceWriteFailure} else {})
  }

  function EventLines(lines: seq<string>): seq<string> {
    if lines == [] then [] else lines[..|lines| - 1]
  }

  function Decode(num: Numerals, lines: seq<string>, known: set<int>): Decoded {
    var s := ScanFrom(known, Start(lines), ReadEvents(num, EventLines(lines)));
    Decoded(
      s.errors + (if s.stack != [] then {UnclosedFrames} else {})
        + MarkerErrors(num, lines, s.enters, s.exits)
        + (if s.enters != s.exits then {EnterExitCountMismatch} else {}),
      s.enters, s.exits, s.entered, s.edges)
  }

  method ReadEnd(num: Numerals, lines: seq<string>, enterCount: nat, exitCount: nat) returns (errors: set<TraceError>)
    ensures errors == MarkerErrors(num, lines, enterCount, exitCount)
  {
    errors := {};
    if |lines| == 0 {
      errors := errors + {EndMarkerMalformed};
    } else {
      var marker := ReadMarker(num, lines[|lines| - 1]);
      if marker.None? {
        errors := errors + {EndMarkerMalformed};
      } else {
        if marker.value.enters != enterCount || marker.value.exits != exitCount {
          errors := errors + {EventCountMismatch};
        }
        if marker.value.failed != 0 {
          errors := errors + {TraceWriteFailure};
        }
      }
    }
  }

  /** The decoder as the source writes it: one pass with a mutable stack and counters. */
  method DecodeBoundedTrace(num: Numerals, lines: seq<string>, known: set<int>) returns (d: Decoded)
    ensures d == Decode(num, lines, known)
    ensures d.Complete() <==> exists f :: Certifies(num, lines, known, f)
    ensures forall f :: Certifies(num, lines, known, f) ==>
              d.enters == d.exits == Size(f) && CountsOf(f, d.entered, d.edges)
  {
    hide ScanFrom, ReadEvent, MarkerErrors, Certifies, CountsOf, Size;
    var stack: seq<int> := [];
    var entered: map<int, nat> := map[];
    var edges: map<(int, int), nat> := map[];
    var enterCount, exitCount := 0, 0;
    var errors: set<TraceError> := {};
    if |lines| == 0 || !HasEndPrefix(lines[|lines| - 1]) {
      errors := {EndMarkerMissing};
    }
    var body := EventLines(lines);
    ghost var events := ReadEvents(num, body);
    assert events[0..] == events;
    for i := 0 to |body|
      invariant ScanFrom(known, Start(lines), events) ==
                ScanFrom(known, Scan(stack, entered, edges, enterCount, exitCount, errors), events[i..])
    {
      ScanOne(known, Scan(stack, entered, edges, enterCount, exitCount, errors), events, i);
      var event := ReadEvent(num, body[i]);
      match event {
        case BadShape =>
          errors := errors + {MalformedEvent};
        case BadOffset =>
          errors := errors + {MalformedOffset};
        case Enter(offset) =>
          if offset !in known {
            errors := errors + {UnmappedFunctionOffset};
          }
          enterCount := enterCount + 1;
          entered := Bump(entered, offset);
          if stack != [] {
            edges := Bump(edges, (stack[|stack| - 1], offset));
          }
          stack := stack + [offset];
        case Exit(offset) =>
          if offset !in known {
            errors := errors + {UnmappedFunctionOffset};
          }
          exitCount := exitCount + 1;
          if stack == [] {
            errors := errors + {ExitStackMismatch};
          } else {
            var top := stack[|stack| - 1];
            stack := stack[..|stack| - 1];
            if top != offset {
              errors := errors + {ExitStackMismatch};
            }
          }
      }
    }
    assert events[|body|..] == [];
    ScanNone(known, Scan(stack, entered, edges, enterCount, exitCount, errors));
    if stack != [] {
      errors := errors + {UnclosedFrames};
    }
    var endErrors := ReadEnd(num, lines, enterCount, exitCount);
    errors := errors + endErrors;
    if enterCount != exitCount {
      errors := errors + {EnterExitCountMismatch};
    }
    d := Decoded(errors, enterCount, exitCount, entered, edges);
    CompleteIffForest(num, lines, known);
  }

  // ---------- the forest a trace stands for ----------

  /** First frame with its nested calls, then the frames that follow it at the same level. */
  datatype Forest = Nil | Cons(offset: int, calls: Forest, next: Forest)

  function Print(f: Forest): seq<Event> {
    match f
    case Nil => []
    case Cons(o, calls, next) => [Enter(o)] + Print(calls) + [Exit(o)] + Print(next)
  }

  function Size(f: Forest): nat {
    match f
    case Nil => 0
    case Cons(_, calls, next) => 1 + Size(calls) + Size(next)
  }

  function Offsets(f: Forest): set<int> {
    match f
    case Nil => {}
    case Cons(o, calls, next) => {o} + Offsets(calls) + Offsets(next)
  }

  /** Frames of `o` anywhere in the forest. */
  function Frames(f: Forest, o: int): nat {
    match f
    case Nil => 0
    case Cons(p, calls, next) => (if p == o then 1 else 0) + Frames(calls, o) + Frames(next, o)
  }

  /** Frames of `o` at the top level of the forest. */
  function Roots(f: Forest, o: int): nat {
    match f
    case Nil => 0
    case Cons(p, _, next) => (if p == o then 1 else 0) + Roots(next, o)
  }

  /** Frames of `b` whose directly enclosing frame is one of `a`. */
  function DirectCalls(f: Forest, a: int, b: int): nat {
    match f
    case Nil => 0
    case Cons(p, calls, next) =>
      (if p == a then Roots(calls, b) else 0) + DirectCalls(calls, a, b) + DirectCalls(next, a, b)
  }

  ghost predicate CountsOf(f: Forest, entered: map<int, nat>, edges: map<(int, int), nat>) {
    && (forall o :: Count(entered, o) == Frames(f, o))
    && (forall a, b :: Count(edges, (a, b)) == DirectCalls(f, a, b))
  }

  /** The lines print `f`, every offset is known, and the marker agrees with it. */
  ghost predicate Certifies(num: Numerals, lines: seq<string>, known: set<int>, f: Forest) {
    && lines != []
    && ReadEvents(num, EventLines(lines)) == Print(f)
    && Offsets(f) <= known
    && HasEndPrefix(lines[|lines| - 1])
    && ReadMarker(num, lines[|lines| - 1]) == Some(Marker(Size(f), Size(f), 0))
  }

  lemma {:induction false} ScanAppend(known: set<int>, s: Scan, a: seq<Event>, b: seq<Event>)
    ensures ScanFrom(known, s, a + b) == ScanFrom(known, ScanFrom(known, s, a), b)
    decreases |a|
  {
    if a == [] {
      assert a + b == b;
    } else {
      assert (a + b)[1..] == a[1..] + b;
      ScanAppend(known, Step(known, s, a[0]), a[1..], b);
    }
  }

  function TopRoots(stack: seq<int>, f: Forest, a: int, b: int): nat {
    if stack != [] && stack[|stack| - 1] == a then Roots(f, b) else 0
  }

  /** Scanning a printed forest leaves the stack alone and adds exactly its frames. */
  lemma {:induction false} ScanOfPrint(known: set<int>, s: Scan, f: Forest)
    ensures var t := ScanFrom(known, s, Print(f));
            && t.stack == s.stack
            && t.enters == s.enters + Size(f) && t.exits == s.exits + Size(f)
            && t.errors == Flag(s.errors, !(Offsets(f) <= known), UnmappedFunctionOffset)
    decreases f
  {
    match f
    case Nil =>
    case Cons(o, calls, next) =>
      var s1 := Step(known, s, Enter(o));
      var s3 := Step(known, ScanFrom(known, s1, Print(calls)), Exit(o));
      ScanOfPrint(known, s1, calls);
      ScanOfPrint(known, s3, next);
      ScanOfFrame(known, s, o, Print(calls), Print(next));
  }

  lemma {:induction false} EnteredOfPrint(known: set<int>, s: Scan, f: Forest, x: int)
    ensures Count(ScanFrom(known, s, Print(f)).entered, x) == Count(s.entered, x) + Frames(f, x)
    decreases f
  {
    match f
    case Nil =>
    case Cons(o, calls, next) =>
      var s1 := Step(known, s, Enter(o));
      var s3 := Step(known, ScanFrom(known, s1, Print(calls)), Exit(o));
      EnteredOfPrint(known, s1, calls, x);
      EnteredOfPrint(known, s3, next, x);
      ScanOfFrame(known, s, o, Print(calls), Print(next));
  }

  lemma {:induction false} EdgesOfPrint(known: set<int>, s: Scan, f: Forest, a: int, b: int)
    ensures Count(ScanFrom(known, s, Print(f)).edges, (a, b)) ==
            Count(s.edges, (a, b)) + DirectCalls(f, a, b) + TopRoots(s.stack, f, a, b)
    decreases f
  {
    match f
    case Nil =>
    case Cons(o, calls, next) =>
      var s1 := Step(known, s, Enter(o));
      var s2 := ScanFrom(known, s1, Print(calls));
      var s3 := Step(known, s2, Exit(o));
      ScanOfPrint(known, s1, calls);
      EdgesOfPrint(known, s1, calls, a, b);
      EdgesOfPrint(known, s3, next, a, b);
      ScanOfFrame(known, s, o, Print(calls), Print(next));
      EdgesOfStep(known, s, o, a, b);
      hide ScanFrom, Step, Offsets, Size;
      assert s3.stack == s.stack && s3.edges == s2.edges by {
        ExitPops(known, s, s2, o);
      }
  }

  /** Entering a frame counts one edge under the frame on top, and is the new top. */
  lemma {:induction false} EdgesOfStep(known: set<int>, s: Scan, o: int, a: int, b: int)
    ensures var s1 := Step(known, s, Enter(o));
            && s1.stack == s.stack + [o]
            && Count(s1.edges, (a, b)) ==
               Count(s.edges, (a, b)) + (if s.stack != [] && s.stack[|s.stack| - 1] == a && o == b then 1 else 0)
  {
  }

  lemma {:induction false} ExitPops(known: set<int>, s: Scan, s2: Scan, o: int)
    requires s2.stack == s.stack + [o]
    ensures var s3 := Step(known, s2, Exit(o)); s3.stack == s.stack && s3.edges == s2.edges
  {
  }

  lemma {:induction false} ScanOfFrame(known: set<int>, s: Scan, o: int, calls: seq<Event>, next: seq<Event>)
    ensures ScanFrom(known, s, [Enter(o)] + calls + [Exit(o)] + next) ==
            ScanFrom(known, Step(known, ScanFrom(known, Step(known, s, Enter(o)), calls), Exit(o)), next)
  {
    var s1 := Step(known, s, Enter(o));
    var whole := [Enter(o)] + calls + [Exit(o)] + next;
    var rest := [Exit(o)] + next;
    assert whole[1..] == calls + rest;
    assert rest[1..] == next;
    ScanAppend(known, s1, calls, rest);
  }

  lemma {:induction false} ErrorsGrow(known: set<int>, s: Scan, events: seq<Event>)
    ensures s.errors <= ScanFrom(known, s, events).errors
    decreases |events|
  {
    if events != [] {
      ErrorsGrow(known, Step(known, s, events[0]), events[1..]);
    }
  }

  lemma {:induction false} Reassociate<T>(x: T, p: seq<T>, y: T, q: seq<T>, a: seq<T>)
    ensures [x] + p + [y] + q + a == [x] + (p + ([y] + (q + a)))
    ensures ([x] + p + [y] + q + a)[1..] == p + ([y] + (q + a))
  {
  }

  /** The events that close the open frames of `stack`, with finished forests before and in between. */
  function Unwound(stack: seq<int>, fs: seq<Forest>): seq<Event>
    requires |fs| == |stack| + 1
    decreases |stack|, 1
  {
    Print(fs[0]) + Closing(stack, fs[1..])
  }

  function Closing(stack: seq<int>, fs: seq<Forest>): seq<Event>
    requires |fs| == |stack|
    decreases |stack|, 0
  {
    if stack == [] then [] else [Exit(stack[|stack| - 1])] + Unwound(stack[..|stack| - 1], fs)
  }

  lemma {:induction false} UnwoundEnter(stack: seq<int>, o: int, gs: seq<Forest>)
    requires |gs| == |stack| + 2
    ensures [Enter(o)] + Unwound(stack + [o], gs) == Unwound(stack, [Cons(o, gs[0], gs[1])] + gs[2..])
  {
    var frame, rest, closing := Cons(o, gs[0], gs[1]), gs[1..], Closing(stack, gs[2..]);
    assert Unwound(stack + [o], gs) == Print(gs[0]) + ([Exit(o)] + (Print(gs[1]) + closing)) by {
      assert (stack + [o])[..|stack|] == stack;
      assert rest[0] == gs[1] && rest[1..] == gs[2..];
      assert Closing(stack + [o], rest) == [Exit(o)] + Unwound(stack, rest);
    }
    assert Unwound(stack, [frame] + gs[2..]) == Print(frame) + closing by {
      assert ([frame] + gs[2..])[1..] == gs[2..];
    }
    hide Unwound, Closing;
    Reassociate(Enter(o), Print(gs[0]), Exit(o), Print(gs[1]), closing);
  }

  lemma {:induction false} UnwoundExit(stack: seq<int>, gs: seq<Forest>)
    requires stack != [] && |gs| == |stack|
    ensures [Exit(stack[|stack| - 1])] + Unwound(stack[..|stack| - 1], gs) == Unwound(stack, [Nil] + gs)
  {
    assert ([Nil] + gs)[1..] == gs;
  }

  /** An error-free scan that ends with no open frame decomposes into forests. */
  lemma {:induction false} Rebuild(known: set<int>, s: Scan, events: seq<Event>) returns (fs: seq<Forest>)
    requires ScanFrom(known, s, events).errors == {}
    requires ScanFrom(known, s, events).stack == []
    ensures |fs| == |s.stack| + 1 && events == Unwound(s.stack, fs)
    decreases |events|
  {
    UnwoundEmpty(Nil);
    hide Unwound, Flag, Bump;
    if events == [] {
      fs := [Nil];
    } else {
      var t := Step(known, s, events[0]);
      ErrorsGrow(known, t, events[1..]);
      var gs := Rebuild(known, t, events[1..]);
      assert events == [events[0]] + events[1..];
      ErrorFreeStep(known, s, events[0]);
      hide Step, ScanFrom;
      match events[0]
      case Enter(o) =>
        fs := [Cons(o, gs[0], gs[1])] + gs[2..];
        UnwoundEnter(s.stack, o, gs);
      case Exit(o) =>
        fs := [Nil] + gs;
        UnwoundExit(s.stack, gs);
    }
  }

  /** A step that flags nothing enters a frame or closes the one on top. */
  lemma {:induction false} ErrorFreeStep(known: set<int>, s: Scan, event: Event)
    requires Step(known, s, event).errors == {}
    ensures match event
            case Enter(o) => Step(known, s, event).stack == s.stack + [o]
            case Exit(o) =>
              && s.stack != [] && s.stack[|s.stack| - 1] == o
              && Step(known, s, event).stack == s.stack[..|s.stack| - 1]
            case _ => false
  {
  }

  lemma {:induction false} UnwoundEmpty(f: Forest)
    ensures Unwound([], [f]) == Print(f)
  {
  }

  lemma {:induction false} CompleteIffForest(num: Numerals, lines: seq<string>, known: set<int>)
    ensures Decode(num, lines, known).Complete() <==> exists f :: Certifies(num, lines, known, f)
    ensures forall f :: Certifies(num, lines, known, f) ==>
              var d := Decode(num, lines, known);
              d.enters == d.exits == Size(f) && CountsOf(f, d.entered, d.edges)
  {
    hide Unwound, Closing, Print, ScanFrom, Size, Offsets, Frames, DirectCalls, ReadMarker;
    var events := ReadEvents(num, EventLines(lines));
    var s := ScanFrom(known, Start(lines), events);
    forall f | Certifies(num, lines, known, f)
      ensures var d := Decode(num, lines, known);
              d.Complete() && d.enters == d.exits == Size(f) && CountsOf(f, d.entered, d.edges)
    {
      ScanOfPrint(known, Start(lines), f);
      forall o ensures Count(s.entered, o) == Frames(f, o) {
        EnteredOfPrint(known, Start(lines), f, o);
      }
      forall a, b ensures Count(s.edges, (a, b)) == DirectCalls(f, a, b) {
        EdgesOfPrint(known, Start(lines), f, a, b);
      }
    }
    if Decode(num, lines, known).Complete() {
      var fs := Rebuild(known, Start(lines), events);
      UnwoundEmpty(fs[0]);
      assert fs == [fs[0]];
      ScanOfPrint(known, Start(lines), fs[0]);
      assert Certifies(num, lines, known, fs[0]);
    }
  }

  ghost predicate ClosesOrEnds(rest: seq<Event>) {
    rest == [] || rest[0].Exit?
  }

  lemma {:induction false} FirstEvent(f: Forest, a: seq<Event>)
    ensures f.Nil? ==> Print(f) + a == a
    ensures f.Cons? ==> Print(f) + a != [] && (Print(f) + a)[0] == Enter(f.offset)
    ensures f.Cons? ==> (Print(f) + a)[1..] == Print(f.calls) + ([Exit(f.offset)] + (Print(f.next) + a))
  {
    if f.Cons? {
      Reassociate(Enter(f.offset), Print(f.calls), Exit(f.offset), Print(f.next), a);
    }
  }

  lemma {:induction false} PrintIsPrefixFree(f: Forest, g: Forest, a: seq<Event>, b: seq<Event>)
    requires Print(f) + a == Print(g) + b
    requires ClosesOrEnds(a) && ClosesOrEnds(b)
    ensures f == g && a == b
    decreases f
  {
    FirstEvent(f, a);
    FirstEvent(g, b);
    if f.Cons? && g.Cons? {
      var x, y := [Exit(f.offset)] + (Print(f.next) + a), [Exit(g.offset)] + (Print(g.next) + b);
      PrintIsPrefixFree(f.calls, g.calls, x, y);
      assert x[1..] == Print(f.next) + a && y[1..] == Print(g.next) + b;
      PrintIsPrefixFree(f.next, g.next, a, b);
    }
  }

  /** A COMPLETE trace determines its call forest. */
  lemma {:induction false} CertifiedForestIsUnique(
      num: Numerals, lines: seq<string>, known: set<int>, f: Forest, g: Forest)
    requires Certifies(num, lines, known, f) && Certifies(num, lines, known, g)
    ensures f == g
  {
    assert Print(f) + [] == Print(g) + [];
    PrintIsPrefixFree(f, g, [], []);
  }

  // ---------- the text a writer produces ----------

  /** How the trace writer spells numbers; the reader must undo it. */
  datatype Spelling = Spelling(hex: int -> string, dec: int -> string)

  predicate IsWord(w: string) {
    w != "" && forall k :: 0 <= k < |w| ==> !IsSpace(w[k])
  }

  ghost predicate Undoes(num: Numerals, sp: Spelling) {
    forall n :: IsWord(sp.hex(n)) && IsWord(sp.dec(n)) && num.hex(sp.hex(n)) == Some(n) && num.dec(sp.dec(n)) == Some(n)
  }

  function Line(sp: Spelling, event: Event, site: int): string {
    match event
    case Enter(o) => "E " + sp.hex(o) + " " + sp.hex(site)
    case Exit(o) => "X " + sp.hex(o) + " " + sp.hex(site)
    case _ => ""
  }

  function EndLine(sp: Spelling, m: Marker): string {
    "END " + sp.dec(m.enters) + " " + sp.dec(m.exits) + " " + sp.dec(m.failed)
  }

  lemma {:induction false} SplitWord(w: string, rest: string, acc: string)
    requires forall k :: 0 <= k < |w| ==> !IsSpace(w[k])
    ensures SplitFrom(w + rest, acc) == SplitFrom(rest, acc + w)
    decreases |w|
  {
    if w == "" {
      assert w + rest == rest && acc + w == acc;
    } else {
      assert (w + rest)[1..] == w[1..] + rest;
      SplitWord(w[1..], rest, acc + [w[0]]);
      assert acc + [w[0]] + w[1..] == acc + w;
    }
  }

  lemma {:induction false} SplitFirstWord(w: string, rest: string)
    requires IsWord(w)
    ensures Split(w) == [w]
    ensures Split(w + (" " + rest)) == [w] + Split(rest)
  {
    SplitWord(w, "", "");
    assert w + "" == w && "" + w == w;
    SplitWord(w, " " + rest, "");
    assert (" " + rest)[1..] == rest;
  }

  lemma {:induction false} SplitWords(a: string, b: string, c: string)
    requires IsWord(a) && IsWord(b) && IsWord(c)
    ensures Split(a + " " + b + " " + c) == [a, b, c]
  {
    SplitFirstWord(a, b + (" " + c));
    SplitFirstWord(b, c);
    SplitFirstWord(c, "");
    assert a + " " + b + " " + c == a + (" " + (b + (" " + c)));
  }

  lemma {:induction false} ReadOfLine(num: Numerals, sp: Spelling, event: Event, site: int)
    requires Undoes(num, sp) && (event.Enter? || event.Exit?)
    ensures ReadEvent(num, Line(sp, event, site)) == event
  {
    SplitWords(if event.Enter? then "E" else "X", sp.hex(event.offset), sp.hex(site));
    assert "E" + " " == "E " && "X" + " " == "X ";
  }

  lemma {:induction false} ReadOfEndLine(num: Numerals, sp: Spelling, m: Marker)
    requires Undoes(num, sp)
    ensures ReadMarker(num, EndLine(sp, m)) == Some(m) && HasEndPrefix(EndLine(sp, m))
  {
    var a, b, c := sp.dec(m.enters), sp.dec(m.exits), sp.dec(m.failed);
    SplitWords(a, b, c);
    SplitFirstWord("END", a + " " + b + " " + c);
    assert EndLine(sp, m) == "END" + (" " + (a + " " + b + " " + c));
  }

  lemma {:induction false} PrintedEventsAreWellShaped(f: Forest, k: nat)
    requires k < |Print(f)|
    ensures Print(f)[k].Enter? || Print(f)[k].Exit?
    decreases f
  {
    var n := |Print(f.calls)|;
    if 0 < k <= n {
      PrintedEventsAreWellShaped(f.calls, k - 1);
    } else if k > n + 1 {
      PrintedEventsAreWellShaped(f.next, k - n - 2);
    }
  }

  /** What a correct writer emits for a call forest is read back as exactly that forest. */
  lemma {:induction false} WrittenTraceDecodes(
      num: Numerals, sp: Spelling, f: Forest, known: set<int>, sites: seq<int>, lines: seq<string>)
    requires Undoes(num, sp) && Offsets(f) <= known
    requires |sites| == |Print(f)| && |lines| == |sites| + 1
    requires forall k :: 0 <= k < |sites| ==> lines[k] == Line(sp, Print(f)[k], sites[k])
    requires lines[|sites|] == EndLine(sp, Marker(Size(f), Size(f), 0))
    ensures Decode(num, lines, known).Complete()
    ensures forall g :: Certifies(num, lines, known, g) <==> g == f
  {
    forall k | 0 <= k < |sites| ensures ReadEvent(num, lines[k]) == Print(f)[k] {
      PrintedEventsAreWellShaped(f, k);
      ReadOfLine(num, sp, Print(f)[k], sites[k]);
    }
    assert ReadEvents(num, EventLines(lines)) == Print(f);
    ReadOfEndLine(num, sp, Marker(Size(f), Size(f), 0));
    assert Certifies(num, lines, known, f);
    CompleteIffForest(num, lines, known);
    forall g | Certifies(num, lines, known, g) ensures g == f {
      CertifiedForestIsUnique(num, lines, known, g, f);
    }
  }
}
