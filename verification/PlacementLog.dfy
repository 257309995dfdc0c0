// scripts/build_placement_store.py: the hash-chained journal file as a log of payloads.
// The meaning of a payload is a parameter here; PlacementJournal supplies it.
module PlacementLog {
  import opened Common
  import opened ByteCodec
  import opened PlacementRecord

  const MAX_FILE: nat := 32768
  const MAX_FRAME: nat := 16384
  const MAX_FRAMES: nat := 5
  const LF: Byte := 10
  const CR: Byte := 13
  const FRAME_DOMAIN: string := "dfmcp-build-placement-frame/1"

  datatype Frame<P> = Frame(sequence: nat, previous: Bytes, payload: P, checksum: Bytes)

  // Canonical text of a frame without and with its checksum, the text parser, and the transition function.
  datatype Env<!P, !S> = Env(h: Sha, body: (nat, Bytes, P) -> Bytes, text: Frame<P> -> Bytes,
                             parse: Bytes -> Option<Frame<P>>, apply: (Option<S>, P) -> Option<S>)

  // The checksum before the first frame: 64 zeros in hexadecimal.
  function Genesis(): Bytes { seq(32, _ => 0) }

  predicate Plain(s: Bytes) { LF !in s && CR !in s }

  // Canonical text has no line break and parses back to its frame.
  ghost predicate Faithful<P(!new), S>(env: Env<P, S>) {
    forall f: Frame<P> :: Plain(env.text(f)) && env.parse(env.text(f) + [LF]) == Some(f)
  }

  // The state after some frames, their number and the last checksum.
  datatype Chain<S> = Chain(state: Option<S>, frames: nat, tail: Bytes)

  function Empty<S>(): Chain<S> { Chain(None, 0, Genesis()) }

  function Sum<P, S>(env: Env<P, S>, sequence: nat, previous: Bytes, p: P): (d: Bytes)
    ensures |d| == 32
  {
    Digest(env.h, FRAME_DOMAIN, env.body(sequence, previous, p))
  }

  function NextFrame<P, S>(env: Env<P, S>, c: Chain<S>, p: P): Frame<P> {
    Frame(c.frames, c.tail, p, Sum(env, c.frames, c.tail, p))
  }

  function Line<P, S>(env: Env<P, S>, c: Chain<S>, p: P): Bytes { env.text(NextFrame(env, c, p)) + [LF] }

  // The bytes to append for a payload, when the transition is allowed and the frame is small enough.
  function FrameBytes<P, S>(env: Env<P, S>, c: Chain<S>, p: P): Option<Bytes> {
    if env.apply(c.state, p).None? || |Line(env, c, p)| > MAX_FRAME then None else Some(Line(env, c, p))
  }

  function Advance<P, S>(env: Env<P, S>, c: Chain<S>, p: P): Chain<S> {
    Chain(env.apply(c.state, p), c.frames + 1, Sum(env, c.frames, c.tail, p))
  }

  // One line of the replay loop.
  function ReplayLine<P, S>(env: Env<P, S>, c: Chain<S>, line: Bytes): Option<Chain<S>> {
    if |line| > MAX_FRAME then None else
      match env.parse(line)
      case None => None
      case Some(f) =>
        if f.sequence != c.frames || f.previous != c.tail then None
        else if f.checksum != Sum(env, f.sequence, f.previous, f.payload) || env.text(f) + [LF] != line then None
        else if env.apply(c.state, f.payload).None? then None
        else Some(Chain(env.apply(c.state, f.payload), c.frames + 1, f.checksum))
  }

  function ReplayLines<P, S>(env: Env<P, S>, lines: seq<Bytes>): Option<Chain<S>> {
    if lines == [] then Some(Empty()) else
      match ReplayLines(env, lines[..|lines| - 1])
      case None => None
      case Some(c) => ReplayLine(env, c, lines[|lines| - 1])
  }

  // Where the first line ends: after LF, or after a CR that no LF follows.
  function LineEnd(s: Bytes): (n: nat)
    requires s != []
    ensures 0 < n <= |s|
  {
    if s[0] == LF || (s[0] == CR && !(|s| > 1 && s[1] == LF)) || |s| == 1 then 1 else 1 + LineEnd(s[1..])
  }

  function Lines(s: Bytes): seq<Bytes> {
    if s == [] then [] else [s[..LineEnd(s)]] + Lines(s[LineEnd(s)..])
  }

  predicate Terminated(s: Bytes) { s != [] && s[|s| - 1] == LF }

  function Replay<P, S>(env: Env<P, S>, raw: Bytes): Option<Chain<S>> {
    if !(0 < |raw| <= MAX_FILE && Terminated(raw)) || |Lines(raw)| > MAX_FRAMES then None
    else ReplayLines(env, Lines(raw))
  }

  // The replay loop.
  method ReplayFile<P, S>(env: Env<P, S>, raw: Bytes) returns (c: Option<Chain<S>>)
    ensures c == Replay(env, raw)
  {
    if !(0 < |raw| <= MAX_FILE && Terminated(raw)) { return None; }
    var lines := Lines(raw);
    if |lines| > MAX_FRAMES { return None; }
    var chain: Chain<S> := Empty();
    for i := 0 to |lines|
      invariant ReplayLines(env, lines[..i]) == Some(chain)
    {
      assert lines[..i + 1][..i] == lines[..i];
      var next := ReplayLine(env, chain, lines[i]);
      if next.None? {
        RefusedLine(env, lines, i + 1);
        return None;
      }
      chain := next.value;
    }
    assert lines[..|lines|] == lines;
    c := Some(chain);
  }

  lemma {:induction false} RefusedLine<P, S>(env: Env<P, S>, lines: seq<Bytes>, k: nat)
    requires k <= |lines| && ReplayLines(env, lines[..k]).None?
    ensures ReplayLines(env, lines).None?
    decreases |lines| - k
  {
    if k == |lines| {
      assert lines[..k] == lines;
    } else {
      RefusedNext(env, lines[..k], lines[k]);
      assert lines[..k + 1] == lines[..k] + [lines[k]];
      RefusedLine(env, lines, k + 1);
    }
  }

  lemma RefusedNext<P, S>(env: Env<P, S>, lines: seq<Bytes>, line: Bytes)
    requires ReplayLines(env, lines).None?
    ensures ReplayLines(env, lines + [line]).None?
  {
    assert (lines + [line])[..|lines|] == lines;
  }

  // ---- Splitting.

  lemma {:induction false} LineEndKept(s: Bytes, t: Bytes)
    requires Terminated(s)
    ensures LineEnd(s + t) == LineEnd(s)
    ensures s[LineEnd(s)..] == [] || Terminated(s[LineEnd(s)..])
  {
    assert (s + t)[0] == s[0];
    if |s| > 1 {
      assert (s + t)[1] == s[1];
      assert (s + t)[1..] == s[1..] + t;
      LineEndKept(s[1..], t);
      if LineEnd(s) > 1 { assert s[LineEnd(s)..] == s[1..][LineEnd(s[1..])..]; }
    }
  }

  lemma {:induction false} LineEndPlain(s: Bytes)
    requires Plain(s)
    ensures LineEnd(s + [LF]) == |s| + 1
  {
    if s != [] {
      assert s[0] in s;
      if |s| > 1 { assert s[1] in s; }
      assert (s + [LF])[1..] == s[1..] + [LF];
      LineEndPlain(s[1..]);
    }
  }

  lemma OneLine(s: Bytes)
    requires Plain(s)
    ensures Lines(s + [LF]) == [s + [LF]]
  {
    LineEndPlain(s);
    var t := s + [LF];
    assert t[..|t|] == t && t[|t|..] == [];
  }

  // Appending one line to whole lines.
  lemma {:induction false} LinesAppend(s: Bytes, t: Bytes)
    requires (s == [] || Terminated(s)) && Plain(t)
    ensures Lines(s + (t + [LF])) == Lines(s) + [t + [LF]]
    decreases |s|
  {
    var line := t + [LF];
    if s == [] {
      assert s + line == line;
      OneLine(t);
    } else {
      LineEndKept(s, line);
      var n := LineEnd(s);
      assert (s + line)[..n] == s[..n] && (s + line)[n..] == s[n..] + line;
      LinesAppend(s[n..], t);
      assert [s[..n]] + (Lines(s[n..]) + [line]) == Lines(s) + [line];
    }
  }

  function Joined(lines: seq<Bytes>): Bytes {
    if lines == [] then [] else Joined(lines[..|lines| - 1]) + lines[|lines| - 1]
  }

  lemma {:induction false} JoinedFront(first: Bytes, lines: seq<Bytes>)
    ensures Joined([first] + lines) == first + Joined(lines)
    decreases |lines|
  {
    var all := [first] + lines;
    if lines == [] {
      assert all[..0] == [];
    } else {
      var n := |lines| - 1;
      JoinedFront(first, lines[..n]);
      assert all[..|all| - 1] == [first] + lines[..n];
      assert first + Joined(lines[..n]) + lines[n] == first + (Joined(lines[..n]) + lines[n]);
    }
  }

  lemma {:induction false} LinesJoined(s: Bytes)
    ensures Joined(Lines(s)) == s
  {
    if s != [] {
      var n := LineEnd(s);
      LinesJoined(s[n..]);
      JoinedFront(s[..n], Lines(s[n..]));
    }
  }

  // ---- Histories.

  datatype Log<S> = Log(raw: Bytes, chain: Chain<S>)

  // The file that holds exactly these payloads, and the state it stands for.
  function Written<P, S>(env: Env<P, S>, ps: seq<P>): Option<Log<S>> {
    if ps == [] then Some(Log([], Empty())) else
      match Written(env, ps[..|ps| - 1])
      case None => None
      case Some(l) =>
        match FrameBytes(env, l.chain, ps[|ps| - 1])
        case None => None
        case Some(out) => Some(Log(l.raw + out, Advance(env, l.chain, ps[|ps| - 1])))
  }

  lemma WrittenMore<P, S>(env: Env<P, S>, ps: seq<P>, p: P)
    requires Written(env, ps).Some? && FrameBytes(env, Written(env, ps).value.chain, p).Some?
    ensures var l := Written(env, ps).value;
            Written(env, ps + [p]) == Some(Log(l.raw + FrameBytes(env, l.chain, p).value, Advance(env, l.chain, p)))
  {
    assert (ps + [p])[..|ps|] == ps;
  }

  // A line is accepted exactly when it is the frame of an allowed payload.
  lemma LineAccepted<P(!new), S>(env: Env<P, S>, c: Chain<S>, p: P)
    requires Faithful(env) && FrameBytes(env, c, p).Some?
    ensures ReplayLine(env, c, FrameBytes(env, c, p).value) == Some(Advance(env, c, p))
  {
    var f := NextFrame(env, c, p);
    assert env.parse(env.text(f) + [LF]) == Some(f);
  }

  lemma LineUnderstood<P, S>(env: Env<P, S>, c: Chain<S>, line: Bytes)
    requires ReplayLine(env, c, line).Some?
    ensures env.parse(line).Some?
    ensures var p := env.parse(line).value.payload;
            FrameBytes(env, c, p) == Some(line) && ReplayLine(env, c, line) == Some(Advance(env, c, p))
  {
    var f := env.parse(line).value;
    assert f == NextFrame(env, c, f.payload);
  }

  lemma {:induction false} WrittenLines<P(!new), S>(env: Env<P, S>, ps: seq<P>)
    requires Faithful(env) && Written(env, ps).Some?
    ensures var l := Written(env, ps).value;
            (l.raw == [] || Terminated(l.raw)) && (ps != [] ==> l.raw != []) &&
            |Lines(l.raw)| == |ps| && ReplayLines(env, Lines(l.raw)) == Some(l.chain)
  {
    if ps != [] {
      var n := |ps| - 1;
      WrittenLines(env, ps[..n]);
      var l := Written(env, ps[..n]).value;
      LineAccepted(env, l.chain, ps[n]);
      var t := env.text(NextFrame(env, l.chain, ps[n]));
      LinesAppend(l.raw, t);
      assert (Lines(l.raw) + [t + [LF]])[..n] == Lines(l.raw);
    }
  }

  // The journal's bytes replay to its state.
  lemma ReplayWritten<P(!new), S>(env: Env<P, S>, ps: seq<P>)
    requires Faithful(env) && 1 <= |ps| <= MAX_FRAMES && Written(env, ps).Some?
    requires |Written(env, ps).value.raw| <= MAX_FILE
    ensures Replay(env, Written(env, ps).value.raw) == Some(Written(env, ps).value.chain)
  {
    WrittenLines(env, ps);
  }

  // The payloads on lines that replay.
  function Payloads<P, S>(env: Env<P, S>, lines: seq<Bytes>): (ps: seq<P>)
    requires ReplayLines(env, lines).Some?
    ensures |ps| == |lines|
  {
    if lines == [] then [] else
      var n := |lines| - 1;
      Payloads(env, lines[..n]) + [env.parse(lines[n]).value.payload]
  }

  lemma {:induction false} LinesWritten<P, S>(env: Env<P, S>, lines: seq<Bytes>)
    requires ReplayLines(env, lines).Some?
    ensures Written(env, Payloads(env, lines)) == Some(Log(Joined(lines), ReplayLines(env, lines).value))
  {
    if lines != [] {
      var n := |lines| - 1;
      LinesWritten(env, lines[..n]);
      LineUnderstood(env, ReplayLines(env, lines[..n]).value, lines[n]);
      WrittenMore(env, Payloads(env, lines[..n]), env.parse(lines[n]).value.payload);
    }
  }

  // Every file that replays is the file of some history of payloads.
  lemma ReplayUnderstood<P, S>(env: Env<P, S>, raw: Bytes) returns (ps: seq<P>)
    requires Replay(env, raw).Some?
    ensures 1 <= |ps| <= MAX_FRAMES && Written(env, ps) == Some(Log(raw, Replay(env, raw).value))
  {
    LinesWritten(env, Lines(raw));
    LinesJoined(raw);
    ps := Payloads(env, Lines(raw));
  }

  lemma {:induction false} WrittenFrames<P, S>(env: Env<P, S>, ps: seq<P>)
    requires Written(env, ps).Some?
    ensures Written(env, ps).value.chain.frames == |ps|
    ensures ps != [] ==> Written(env, ps).value.chain.state.Some?
  {
    if ps != [] { WrittenFrames(env, ps[..|ps| - 1]); }
  }

  // Dropping the last frames gives an earlier file and the state it had.
  lemma {:induction false} WrittenPrefix<P, S>(env: Env<P, S>, ps: seq<P>, k: nat)
    requires k <= |ps| && Written(env, ps).Some?
    ensures Written(env, ps[..k]).Some? && Written(env, ps[..k]).value.raw <= Written(env, ps).value.raw
    decreases |ps|
  {
    if k == |ps| {
      assert ps[..k] == ps;
    } else {
      var n := |ps| - 1;
      assert ps[..n][..k] == ps[..k];
      WrittenPrefix(env, ps[..n], k);
    }
  }

  lemma PrefixReplays<P(!new), S>(env: Env<P, S>, raw: Bytes, ps: seq<P>, k: nat)
    requires Faithful(env) && 1 <= k <= |ps| <= MAX_FRAMES
    requires Replay(env, raw).Some? && Written(env, ps) == Some(Log(raw, Replay(env, raw).value))
    ensures Written(env, ps[..k]).Some?
    ensures var earlier := Written(env, ps[..k]).value;
            earlier.raw <= raw && Replay(env, earlier.raw) == Some(earlier.chain)
  {
    WrittenPrefix(env, ps, k);
    ReplayWritten(env, ps[..k]);
  }

  // A strict piece of a frame after whole frames is never accepted.
  lemma TornRefused<P(!new), S>(env: Env<P, S>, raw: Bytes, c: Chain<S>, p: P, k: nat)
    requires Faithful(env) && FrameBytes(env, c, p).Some? && 0 < k < |FrameBytes(env, c, p).value|
    ensures Replay(env, raw + FrameBytes(env, c, p).value[..k]).None?
  {
    var t := env.text(NextFrame(env, c, p));
    var torn := raw + FrameBytes(env, c, p).value[..k];
    assert torn[|torn| - 1] == t[k - 1] && t[k - 1] in t;
  }

  // Appending one allowed frame to a file that replays, within the limits.
  lemma ReplayAppend<P(!new), S>(env: Env<P, S>, raw: Bytes, p: P)
    requires Faithful(env) && Replay(env, raw).Some? && FrameBytes(env, Replay(env, raw).value, p).Some?
    ensures var c := Replay(env, raw).value;
            var new_ := raw + FrameBytes(env, c, p).value;
            c.state.Some? &&
            Replay(env, new_) == if |new_| <= MAX_FILE && c.frames < MAX_FRAMES then Some(Advance(env, c, p)) else None
  {
    var ps := ReplayUnderstood(env, raw);
    WrittenFrames(env, ps);
    WrittenMore(env, ps, p);
    WrittenLines(env, ps + [p]);
  }

  // A first frame stands for the state its payload starts.
  lemma ReplayFirst<P(!new), S>(env: Env<P, S>, p: P)
    requires Faithful(env) && FrameBytes(env, Empty(), p).Some? && |FrameBytes(env, Empty(), p).value| <= MAX_FILE
    ensures Replay(env, FrameBytes(env, Empty(), p).value) == Some(Advance(env, Empty(), p))
  {
    WrittenMore(env, [], p);
    var out := FrameBytes(env, Empty(), p).value;
    assert [] + [p] == [p] && [] + out == out;
    ReplayWritten(env, [p]);
  }
}
