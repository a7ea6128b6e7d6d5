/** Reading a process's command line out of the KERN_PROCARGS2 buffer
    (agent/Sources/vguardiand/InventoryReporter.swift:159-188): a 4-byte argument count, the
    executable path, NUL padding, then the NUL-terminated arguments. */
module ProcArgs {
  import opened Basics
  import Framing

  type Bytes = seq<byte>

  const HEADER := 4
  const INT32_LIMIT := 0x8000_0000
  const SPACE: byte := 32

  /** A little-endian Int32. */
  function ReadInt32(b: Bytes): int
    requires |b| >= HEADER
  {
    var u := Framing.ReadLength(Framing.Chrome, b);
    if u >= INT32_LIMIT then u - Framing.UINT32_LIMIT else u
  }

  predicate NoNul(s: Bytes) { 0 !in s }

  /** What is left after the leading bytes that are, or are not, NUL. */
  function Skip(b: Bytes, nul: bool): Bytes {
    if b != [] && (b[0] == 0) == nul then Skip(b[1..], nul) else b
  }

  /** The first `argc` NUL-terminated strings; `current` is the part of the next one already read.
      An unterminated last string is not taken. */
  function Split(b: Bytes, argc: nat, current: Bytes): seq<Bytes>
    decreases b
  {
    if b == [] || argc == 0 then []
    else if b[0] == 0 then [current] + Split(b[1..], argc - 1, [])
    else Split(b[1..], argc, current + [b[0]])
  }

  /** The arguments found; none without a positive count. */
  function Args(b: Bytes): seq<Bytes> {
    if |b| <= HEADER || ReadInt32(b) <= 0 then []
    else Split(Skip(Skip(b[HEADER..], false), true), ReadInt32(b), [])
  }

  /** The arguments joined by spaces, unless that leaves nothing to show. */
  function Shown(args: seq<Bytes>): Option<Bytes> {
    var joined := Join(args, [SPACE]);
    if joined == [] then None else Some(joined)
  }

  /** The kernel's layout; `rest` is the environment and whatever else follows. */
  function Layout(path: Bytes, padding: nat, args: seq<Bytes>, rest: Bytes): Bytes
    requires |args| < INT32_LIMIT
  {
    Buffer(|args|, path, padding, Terminated(args) + rest)
  }

  /** A little-endian count, the path, its padding, and the rest. */
  function Buffer(count: nat, path: Bytes, padding: nat, body: Bytes): Bytes
    requires count < INT32_LIMIT
  {
    Framing.Header(Framing.Chrome, count) + (path + (Nuls(padding) + body))
  }

  function Nuls(n: nat): Bytes { if n == 0 then [] else [0] + Nuls(n - 1) }

  function Terminated(args: seq<Bytes>): Bytes {
    if args == [] then [] else args[0] + [0] + Terminated(args[1..])
  }

  // ---------------------------------------------------------------- skipping and splitting

  lemma {:induction false} SkipPath(path: Bytes, rest: Bytes)
    requires NoNul(path) && (rest == [] || rest[0] == 0)
    ensures Skip(path + rest, false) == rest
    decreases path
  {
    if path == [] {
      assert path + rest == rest;
    } else {
      assert path[0] in path;
      assert (path + rest)[1..] == path[1..] + rest;
      SkipPath(path[1..], rest);
    }
  }

  lemma {:induction false} SkipNuls(n: nat, rest: Bytes)
    ensures Skip(Nuls(n) + rest, true) == Skip(rest, true)
    decreases n
  {
    if n == 0 {
      assert Nuls(n) + rest == rest;
    } else {
      assert (Nuls(n) + rest)[1..] == Nuls(n - 1) + rest;
      SkipNuls(n - 1, rest);
    }
  }

  lemma {:induction false} SplitOne(arg: Bytes, rest: Bytes, argc: nat, current: Bytes)
    requires NoNul(arg) && argc > 0
    ensures Split(arg + [0] + rest, argc, current) == [current + arg] + Split(rest, argc - 1, [])
    decreases arg
  {
    var b := arg + [0] + rest;
    if arg == [] {
      assert b[1..] == rest && current + arg == current;
    } else {
      assert arg[0] in arg;
      assert b[1..] == arg[1..] + [0] + rest;
      SplitOne(arg[1..], rest, argc, current + [arg[0]]);
      assert current + [arg[0]] + arg[1..] == current + arg;
    }
  }

  lemma {:induction false} SplitTerminated(args: seq<Bytes>, rest: Bytes)
    requires forall a :: a in args ==> NoNul(a)
    ensures Split(Terminated(args) + rest, |args|, []) == args
    decreases |args|
  {
    if args == [] {
    } else {
      assert Terminated(args) + rest == args[0] + [0] + (Terminated(args[1..]) + rest);
      SplitOne(args[0], Terminated(args[1..]) + rest, |args|, []);
      SplitTerminated(args[1..], rest);
      assert [] + args[0] == args[0];
    }
  }

  lemma {:induction false} SplitIsBounded(b: Bytes, argc: nat, current: Bytes)
    requires NoNul(current)
    ensures |Split(b, argc, current)| <= argc
    ensures forall a :: a in Split(b, argc, current) ==> NoNul(a)
    decreases b
  {
    if b != [] && argc > 0 {
      if b[0] == 0 { SplitIsBounded(b[1..], argc - 1, []); } else { SplitIsBounded(b[1..], argc, current + [b[0]]); }
    }
  }

  /** Whatever the buffer holds, no more arguments come out than were announced, and none has a NUL. */
  lemma ArgsAreBounded(b: Bytes)
    ensures |b| >= HEADER ==> |Args(b)| <= Max(0, ReadInt32(b))
    ensures forall a :: a in Args(b) ==> NoNul(a)
  {
    if |b| > HEADER && ReadInt32(b) > 0 {
      SplitIsBounded(Skip(Skip(b[HEADER..], false), true), ReadInt32(b), []);
    }
  }

  // ---------------------------------------------------------------- the round trip

  /** What a buffer announces, and what is left of it past path and padding. */
  lemma BodyOf(count: nat, path: Bytes, padding: nat, body: Bytes)
    requires count < INT32_LIMIT && NoNul(path) && padding >= 1
    ensures var b := Buffer(count, path, padding, body);
      |b| > HEADER && ReadInt32(b) == count && Skip(Skip(b[HEADER..], false), true) == Skip(body, true)
  {
    var header, tail := Framing.Header(Framing.Chrome, count), Nuls(padding) + body;
    assert (header + (path + tail))[HEADER..] == path + tail;
    Framing.HeaderRoundTrip(Framing.Chrome, count, path + tail);
    SkipPath(path, tail);
    SkipNuls(padding, body);
  }

  lemma ArgsOf(b: Bytes, count: nat, body: Bytes)
    requires |b| > HEADER && ReadInt32(b) == count > 0 && Skip(Skip(b[HEADER..], false), true) == body
    ensures Args(b) == Split(body, count, [])
  {
  }

  lemma BodyOfLayout(path: Bytes, padding: nat, args: seq<Bytes>, rest: Bytes)
    requires |args| < INT32_LIMIT && NoNul(path) && padding >= 1
    ensures var b := Layout(path, padding, args, rest);
      |b| > HEADER && ReadInt32(b) == |args|
      && Skip(Skip(b[HEADER..], false), true) == Skip(Terminated(args) + rest, true)
  {
    BodyOf(|args|, path, padding, Terminated(args) + rest);
  }

  /** An empty first argument melts into the padding: the arguments then come out shifted. */
  lemma {:induction false} ShiftedStart(b: Bytes, n: nat)
    requires b == [] || b[0] != 0
    requires n > 0
    ensures var got := Split(b, n, []); got == [] || got[0] != []
    decreases |b|
  {
    if b == [] {
    } else {
      SplitHeadGrows(b[1..], n, [b[0]]); assert [] + [b[0]] == [b[0]];
    }
  }

  lemma {:induction false} SplitHeadGrows(b: Bytes, n: nat, current: Bytes)
    requires current != []
    ensures var got := Split(b, n, current); got == [] || got[0] != []
    decreases b
  {
    if b != [] && n > 0 && b[0] != 0 { SplitHeadGrows(b[1..], n, current + [b[0]]); }
  }

  lemma {:induction false} SkipStops(b: Bytes)
    ensures var s := Skip(b, true); s == [] || s[0] != 0
    decreases b
  {
    if b != [] && b[0] == 0 { SkipStops(b[1..]); }
  }

  /** The kernel's layout reads back as exactly the arguments written, whatever follows them, if
      and only if the first argument is not empty. */
  lemma CommandLineRoundTripIff(path: Bytes, padding: nat, args: seq<Bytes>, rest: Bytes)
    requires |args| < INT32_LIMIT && NoNul(path) && padding >= 1
    requires forall a :: a in args ==> NoNul(a)
    ensures Args(Layout(path, padding, args, rest)) == args <==> args == [] || args[0] != []
  {
    BodyOfLayout(path, padding, args, rest);
    if args != [] {
      var body := Terminated(args) + rest;
      if args[0] != [] {
        assert args[0][0] in args[0] && body[0] == args[0][0];
        SplitTerminated(args, rest);
      } else {
        SkipStops(body);
        ShiftedStart(Skip(body, true), |args|);
      }
    }
  }

  /** An empty argument followed by another: only the second comes out. */
  lemma EmptyFirstArgumentIsLost(path: Bytes, padding: nat, arg: Bytes)
    requires NoNul(path) && padding >= 1 && NoNul(arg) && arg != []
    ensures Args(Layout(path, padding, [[], arg], [])) == [arg]
  {
    var args := [[], arg];
    var body := Terminated([arg]) + [];
    BodyOfLayout(path, padding, args, []);
    assert args[1..] == [arg] && [arg][1..] == [];
    assert Terminated([arg]) == arg + [0] + [];
    assert Terminated(args) + [] == [0] + body;
    assert arg[0] in arg && body[0] == arg[0] && ([0] + body)[1..] == body;
    assert Skip([0] + body, true) == Skip(body, true) == body;
    assert body == arg + [0] + [];
    SplitOne(arg, [], 2, []);
    assert [] + arg == arg && Split([], 1, []) == [];
  }

  lemma {:induction false} UnterminatedIsDropped(tail: Bytes, argc: nat, current: Bytes)
    requires NoNul(tail)
    ensures Split(tail, argc, current) == []
    decreases tail
  {
    if tail == [] || argc == 0 {
    } else {
      assert tail[0] in tail;
      UnterminatedIsDropped(tail[1..], argc, current + [tail[0]]);
    }
  }

  lemma {:induction false} SplitCut(args: seq<Bytes>, tail: Bytes, argc: nat)
    requires (forall a :: a in args ==> NoNul(a)) && NoNul(tail) && argc >= |args|
    ensures Split(Terminated(args) + tail, argc, []) == args
    decreases |args|
  {
    if args == [] {
      assert Terminated(args) + tail == tail;
      UnterminatedIsDropped(tail, argc, []);
    } else {
      assert Terminated(args) + tail == args[0] + [0] + (Terminated(args[1..]) + tail);
      SplitOne(args[0], Terminated(args[1..]) + tail, argc, []);
      SplitCut(args[1..], tail, argc - 1);
      assert [] + args[0] == args[0];
    }
  }

  /** A buffer cut short, so that it ends inside an argument and announces more than it holds, gives the
      whole arguments and drops the cut one. */
  lemma CutBufferGivesWholeArguments(path: Bytes, padding: nat, args: seq<Bytes>, tail: Bytes, count: nat)
    requires |args| <= count < INT32_LIMIT && NoNul(path) && padding >= 1 && NoNul(tail)
    requires args != [] && args[0] != [] && forall a :: a in args ==> NoNul(a)
    ensures Args(Buffer(count, path, padding, Terminated(args) + tail)) == args
  {
    var body := Terminated(args) + tail;
    BodyOf(count, path, padding, body);
    assert args[0][0] in args[0] && body[0] == args[0][0];
    SplitCut(args, tail, count);
    ArgsOf(Buffer(count, path, padding, body), count, body);
  }

  /** No command line is shown exactly when there is no argument, or only one empty one. */
  lemma ShownIff(args: seq<Bytes>)
    ensures Shown(args).None? <==> args == [] || args == [[]]
  {
    if |args| > 1 { assert SPACE in Join(args, [SPACE]); }
  }

  lemma {:induction false} JoinConcat(xs: seq<Bytes>, ys: seq<Bytes>, sep: Bytes)
    requires xs != [] && ys != []
    ensures Join(xs + ys, sep) == Join(xs, sep) + sep + Join(ys, sep)
    decreases |xs|
  {
    if |xs| == 1 {
      assert (xs + ys)[1..] == ys && xs == [xs[0]];
    } else {
      assert (xs + ys)[1..] == xs[1..] + ys;
      JoinConcat(xs[1..], ys, sep);
      assert xs[0] + sep + (Join(xs[1..], sep) + sep + Join(ys, sep)) ==
             xs[0] + sep + Join(xs[1..], sep) + sep + Join(ys, sep);
    }
  }

  /** What is shown: a single argument as it is, and any others with one space between. */
  lemma ShownIsSpaced(xs: seq<Bytes>, ys: seq<Bytes>, a: Bytes)
    requires xs != [] && ys != []
    ensures Shown([a]) == if a == [] then None else Some(a)
    ensures var shown := (args: seq<Bytes>) => if Shown(args).Some? then Shown(args).value else [];
      Shown(xs + ys) == Some(shown(xs) + [32] + shown(ys))
  {
    JoinConcat(xs, ys, [SPACE]);
  }

  /** A count with its top bit set is negative, and a count of zero announces nothing: no arguments. */
  lemma NoPositiveCount(b: Bytes)
    requires |b| >= 4 && (b[3] >= 128 || b[..4] == [0, 0, 0, 0])
    ensures Args(b) == []
  {
    assert b[..4][0] == b[0] && b[..4][1] == b[1] && b[..4][2] == b[2] && b[..4][3] == b[3];
    if b[3] >= 128 { SignBit(b[3], b[2], b[1], b[0]); }
    assert Framing.ReadLength(Framing.Chrome, b) == Framing.FourBytes(b[3], b[2], b[1], b[0]);
  }

  lemma SignBit(b3: int, b2: int, b1: int, b0: int)
    requires b3 >= 128 && b2 >= 0 && b1 >= 0 && b0 >= 0
    ensures Framing.FourBytes(b3, b2, b1, b0) >= INT32_LIMIT
  {
  }

  // ---------------------------------------------------------------- the loops

  lemma SkipNext(b: Bytes, i: nat, nul: bool)
    requires i < |b|
    ensures (b[i] == 0) == nul ==> Skip(b[i..], nul) == Skip(b[i + 1..], nul)
    ensures (b[i] == 0) != nul ==> Skip(b[i..], nul) == b[i..]
  {
    assert b[i..][1..] == b[i + 1..];
  }

  lemma SplitNext(b: Bytes, i: nat, argc: nat, current: Bytes)
    requires i < |b| && argc > 0
    ensures b[i] == 0 ==> Split(b[i..], argc, current) == [current] + Split(b[i + 1..], argc - 1, [])
    ensures b[i] != 0 ==> Split(b[i..], argc, current) == Split(b[i + 1..], argc, current + [b[i]])
  {
    assert b[i..][1..] == b[i + 1..];
  }

  /** `while idx < size, (buffer[idx] == 0) == nul`. */
  method SkipWhile(buffer: array<byte>, size: nat, start: nat, nul: bool) returns (idx: nat)
    requires start <= size <= buffer.Length
    ensures start <= idx <= size && buffer[..size][idx..] == Skip(buffer[..size][start..], nul)
  {
    ghost var b := buffer[..size];
    idx := start;
    while idx < size && (buffer[idx] == 0) == nul
      invariant start <= idx <= size
      invariant Skip(b[idx..], nul) == Skip(b[start..], nul)
    {
      SkipNext(b, idx, nul);
      idx := idx + 1;
    }
    if idx < size { SkipNext(b, idx, nul); }
  }

  method Collect(buffer: array<byte>, size: nat, start: nat, argc: nat) returns (args: seq<Bytes>)
    requires start <= size <= buffer.Length
    ensures args == Split(buffer[..size][start..], argc, [])
  {
    ghost var b := buffer[..size];
    var idx := start;
    var current: Bytes := [];
    args := [];
    while idx < size && |args| < argc
      invariant start <= idx <= size && |args| <= argc
      invariant args + Split(b[idx..], argc - |args|, current) == Split(b[start..], argc, [])
    {
      SplitNext(b, idx, argc - |args|, current);
      if buffer[idx] == 0 {
        args := args + [current];
        current := [];
      } else {
        current := current + [buffer[idx]];
      }
      idx := idx + 1;
    }
  }

  /** commandLine after its two sysctl calls: the buffer is as long as the first call said, and the
      second call may have reported fewer bytes. */
  method CommandLine(buffer: array<byte>, size: nat) returns (r: Option<Bytes>)
    requires size <= buffer.Length
    ensures r == Shown(Args(buffer[..size]))
  {
    if size <= HEADER { return None; }
    var argc := ReadInt32(buffer[..size]);
    if argc <= 0 { return None; }
    var padding := SkipWhile(buffer, size, HEADER, false);
    var first := SkipWhile(buffer, size, padding, true);
    var args := Collect(buffer, size, first, argc);
    return Shown(args);
  }
}
