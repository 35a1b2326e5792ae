/**
  The connection handshake of `net/misc/socket.cc` over the socket steps of `net/os/linux.cc`: the
  connector sends its magic and its type, the acceptor reads both and compares them with its own.

  The outcomes of the system calls and the samples of the abort flag come from a script, and the
  bytes each peer sends from a list of streams; both are arbitrary. A call that is still running
  when the script ends returns Waiting, so that every prefix of every run is covered.
 */
module Handshake {
  import opened Common

  type byte = x: int | 0 <= x < 256

  const MAGIC_SIZE := 8
  const TYPE_SIZE := 4

  type Magic = s: seq<byte> | |s| == MAGIC_SIZE witness [0, 0, 0, 0, 0, 0, 0, 0]
  type Type = s: seq<byte> | |s| == TYPE_SIZE witness [0, 0, 0, 0]

  datatype State =
    | StateNone | Initialized | Accepting | Accepted | Connecting | ConnectPolling | Connected
    | Ready | Terminating | Closed | Error | BadHandshake

  datatype Code = Success | SystemError | InternalError | RemoteError | Waiting

  /**
    What a system call reports. `Moved(n)`: up to n bytes can be moved, or the call succeeded;
    `Again`: EAGAIN, EWOULDBLOCK, EINTR or a poll timeout; `Transient`: an errno the caller retries;
    `HangUp`: end of stream, ECONNRESET or EPIPE; `Fatal`: any other errno; `Broken`: poll or
    getsockopt itself fails.
   */
  datatype Outcome = Moved(n: nat) | Again | InProgress | Transient | HangUp | Fatal | Broken

  datatype Step = Step(outcome: Outcome, abort: bool)

  /** Where the bytes received so far lead an acceptor, however they were cut into chunks. */
  function Verdict(received: seq<byte>, magic: Magic, kind: Type): State {
    if |received| < MAGIC_SIZE then Accepted
    else if received[..MAGIC_SIZE] != magic then BadHandshake
    else if |received| < MAGIC_SIZE + TYPE_SIZE then Accepted
    else if received == magic + kind then Ready
    else BadHandshake
  }

  function Rest(script: seq<Step>): (rest: seq<Step>)
    ensures |rest| == if script == [] then 0 else |script| - 1
  {
    if script == [] then [] else script[1..]
  }

  /** One attempt to move bytes: the code, whether the peer is gone, and how many bytes moved. */
  datatype Attempt = Attempt(code: Code, closed: bool, moved: nat)

  /** An asynchronous ncclOsSocketProgressOpt with `limit` bytes to move. */
  function Try(script: seq<Step>, hasAbort: bool, limit: nat): (t: Attempt)
    ensures t.moved <= limit && (t.code == Waiting <==> script == [])
    ensures t.code in {Success, RemoteError, InternalError, Waiting} && (t.code == InternalError ==> hasAbort)
    ensures t.closed ==> t.code == Success
    ensures t.closed || t.code in {RemoteError, Waiting} ==> t.moved == 0
  {
    if script == [] then Attempt(Waiting, false, 0)
    else
      var done := if hasAbort && script[0].abort then InternalError else Success;
      match script[0].outcome
      case Moved(n) => Attempt(done, false, Min(n, limit))
      case Again => Attempt(done, false, 0)
      case HangUp => Attempt(Success, true, 0)
      case _ => Attempt(RemoteError, false, 0)
  }

  /** What a wait for bytes returns, how many it moved, and what it leaves of the script. */
  datatype Waited = Waited(code: Code, moved: nat, script: seq<Step>)

  /** Attempt after attempt until `n` bytes have moved, `left` being there to move. */
  function Wait(script: seq<Step>, hasAbort: bool, n: nat, left: nat): (w: Waited)
    ensures w.moved <= Min(n, left) && (w.code == Success ==> w.moved == n)
    ensures |w.script| <= |script| && (n > 0 && w.code != Waiting ==> |w.script| < |script|)
    decreases |script|
  {
    if n == 0 then Waited(Success, 0, script)
    else
      var t := Try(script, hasAbort, Min(n, left));
      if t.closed then Waited(RemoteError, 0, Rest(script))
      else if t.code != Success then Waited(t.code, t.moved, Rest(script))
      else More(t.moved, Wait(script[1..], hasAbort, n - t.moved, left - t.moved))
  }

  function More(moved: nat, w: Waited): Waited { w.(moved := moved + w.moved) }

  predicate Waits(script: seq<Step>, hasAbort: bool, n: nat, left: nat, w: Waited) {
    w == Wait(script, hasAbort, n, left)
  }

  /** A wait that begins with what `t` sums up, which leaves `after`, and continues as `rest` unless that failed. */
  function Whole(t: Attempt, after: seq<Step>, rest: Waited): Waited {
    if t.closed then Waited(RemoteError, t.moved, after)
    else if t.code != Success then Waited(t.code, t.moved, after)
    else More(t.moved, rest)
  }

  /** Every wait on `before` begins with what `t` sums up and leaves `after`. */
  ghost predicate Begins(before: seq<Step>, hasAbort: bool, n: nat, left: nat, t: Attempt, after: seq<Step>) {
    t.moved <= n && t.moved <= left &&
    forall w, rest
      {:trigger Waits(before, hasAbort, n, left, w), Waits(after, hasAbort, n - t.moved, left - t.moved, rest)} ::
      Waits(before, hasAbort, n, left, w) && Waits(after, hasAbort, n - t.moved, left - t.moved, rest) ==>
      w == Whole(t, after, rest)
  }

  lemma NothingYet(script: seq<Step>, hasAbort: bool, n: nat, left: nat)
    ensures Begins(script, hasAbort, n, left, Attempt(Success, false, 0), script)
  {}

  /** What one attempt means for the wait it is the first of. */
  lemma FirstAttempt(script: seq<Step>, hasAbort: bool, n: nat, left: nat, t: Attempt, after: seq<Step>)
    requires n > 0 && t == Try(script, hasAbort, Min(n, left)) && after == Rest(script)
    ensures Begins(script, hasAbort, n, left, t, after)
  {}

  /** A peer that is gone is an error for the wait. */
  lemma ClosedIsError(before: seq<Step>, hasAbort: bool, n: nat, left: nat, moved: nat, after: seq<Step>)
    requires Begins(before, hasAbort, n, left, Attempt(Success, true, moved), after)
    ensures Begins(before, hasAbort, n, left, Attempt(RemoteError, false, moved), after)
  {}

  /** The parts of a wait join: `moved` bytes without failure, then what `t` sums up. */
  lemma Continued(before: seq<Step>, hasAbort: bool, n: nat, left: nat, moved: nat, between: seq<Step>,
                  n': nat, left': nat, t: Attempt, after: seq<Step>, total: Attempt)
    requires n == moved + n' && left == moved + left' && total == t.(moved := moved + t.moved)
    requires Begins(before, hasAbort, n, left, Attempt(Success, false, moved), between)
    requires Begins(between, hasAbort, n', left', t, after)
    ensures Begins(before, hasAbort, n, left, total, after)
  {
    assert Waits(between, hasAbort, n', left', Wait(between, hasAbort, n', left'));
  }

  /** The synchronous handshake of a connector: magic, then type. */
  function SendAll(script: seq<Step>, hasAbort: bool): (w: Waited)
    ensures w.moved <= MAGIC_SIZE + TYPE_SIZE && (w.code == Success ==> w.moved == MAGIC_SIZE + TYPE_SIZE)
  {
    var w := Wait(script, hasAbort, MAGIC_SIZE, MAGIC_SIZE);
    if w.code != Success then w else More(MAGIC_SIZE, Wait(w.script, hasAbort, TYPE_SIZE, TYPE_SIZE))
  }

  /** The synchronous handshake of an acceptor; with the wrong magic, or none, it succeeds by turning the peer away. */
  function RecvAll(left: nat, right: bool, script: seq<Step>, hasAbort: bool): (w: Waited)
    ensures w.moved <= Min(MAGIC_SIZE + TYPE_SIZE, left)
    ensures |w.script| <= |script| && (w.code != Waiting ==> |w.script| < |script|)
  {
    var w := Wait(script, hasAbort, MAGIC_SIZE, left);
    if w.code == Waiting then w
    else if w.code != Success || !right then w.(code := Success)
    else More(MAGIC_SIZE, Wait(w.script, hasAbort, TYPE_SIZE, left - MAGIC_SIZE))
  }

  /** A synchronous call fails with bytes moved, which no counter records. */
  predicate Stranded(w: Waited) { w.code != Success && w.moved > 0 }

  /** A wait that has come to its end. */
  lemma Ended(before: seq<Step>, hasAbort: bool, n: nat, left: nat, code: Code, moved: nat, after: seq<Step>)
    requires Begins(before, hasAbort, n, left, Attempt(code, false, moved), after) && (code == Success ==> moved == n)
    ensures Wait(before, hasAbort, n, left) == Waited(code, moved, after)
  {
    assert Waits(before, hasAbort, n, left, Wait(before, hasAbort, n, left));
    assert Waits(after, hasAbort, n - moved, left - moved, Wait(after, hasAbort, n - moved, left - moved));
  }

  lemma RecvStops(left: nat, right: bool, script: seq<Step>, hasAbort: bool, code: Code, moved: nat, after: seq<Step>)
    requires Begins(script, hasAbort, MAGIC_SIZE, left, Attempt(code, false, moved), after)
    requires code == Success ==> moved == MAGIC_SIZE && !right
    ensures RecvAll(left, right, script, hasAbort) == Waited(if code == Waiting then code else Success, moved, after)
  {
    Ended(script, hasAbort, MAGIC_SIZE, left, code, moved, after);
  }

  lemma RecvGoesOn(left: nat, script: seq<Step>, hasAbort: bool, between: seq<Step>, code: Code, moved: nat,
                   after: seq<Step>)
    requires left >= MAGIC_SIZE && (code == Success ==> moved == TYPE_SIZE)
    requires Begins(script, hasAbort, MAGIC_SIZE, left, Attempt(Success, false, MAGIC_SIZE), between)
    requires Begins(between, hasAbort, TYPE_SIZE, left - MAGIC_SIZE, Attempt(code, false, moved), after)
    ensures RecvAll(left, true, script, hasAbort) == Waited(code, MAGIC_SIZE + moved, after)
  {
    Ended(script, hasAbort, MAGIC_SIZE, left, Success, MAGIC_SIZE, between);
    Ended(between, hasAbort, TYPE_SIZE, left - MAGIC_SIZE, code, moved, after);
  }

  /** What connecting has come to: its code, the state and retry count it leaves, and what is left of the script. */
  datatype Dialled = Dialled(code: Code, state: State, retries: int, script: seq<Step>)

  /** What receiving has come to: its code, the state it leaves, the bytes taken, and what is left of the script. */
  datatype Got = Got(code: Code, state: State, moved: nat, script: seq<Step>)

  /** What accepting has come to: its code, and the state, retry count, script and peers it leaves. */
  datatype Served = Served(code: Code, state: State, retries: int, script: seq<Step>, peers: seq<seq<byte>>)

  /** A step after which a wait goes on: it moves what it can, or nothing, and does not meet the abort flag. */
  predicate Eases(step: Step, hasAbort: bool) {
    (step.outcome.Moved? || step.outcome == Again) && !(hasAbort && step.abort)
  }

  /** The bytes a step can move. */
  function Gift(step: Step): nat { if step.outcome.Moved? then step.outcome.n else 0 }

  /** The bytes the first `k` steps can move. */
  function Offered(script: seq<Step>, k: nat): nat
    requires k <= |script|
  {
    if k == 0 then 0 else Gift(script[0]) + Offered(script[1..], k - 1)
  }

  lemma EasedWait(script: seq<Step>, hasAbort: bool, n: nat, left: nat, m: nat, n': nat, left': nat)
    requires script != [] && Eases(script[0], hasAbort) && n > 0
    requires m == Min(Gift(script[0]), Min(n, left)) && n == m + n' && left == m + left'
    ensures Wait(script, hasAbort, n, left) == More(m, Wait(script[1..], hasAbort, n', left'))
  {}

  lemma TroubledWait(script: seq<Step>, hasAbort: bool, n: nat, left: nat)
    requires script != [] && !Eases(script[0], hasAbort) && n > 0
    ensures var aborted := script[0].outcome.Moved? || script[0].outcome == Again;
      Wait(script, hasAbort, n, left)
        == Waited(if aborted then InternalError else RemoteError, Min(Gift(script[0]), Min(n, left)), script[1..])
  {}

  /** With less than `n` to come of `gift` and `rest`, taking `gift` first makes no difference. */
  lemma MinSplit(gift: nat, rest: nat, n: nat, left: nat, m: nat, n': nat, left': nat)
    requires Min(gift, left) < n && m == Min(gift, Min(n, left)) && n == m + n' && left == m + left'
    ensures Min(gift + rest, left) < n <==> Min(rest, left') < n'
    ensures m + Min(rest, left') == Min(gift + rest, left)
    ensures m + Min(rest, Min(n', left')) == Min(gift + rest, Min(n, left))
  {}

  /**
    A wait that is not over before step `k`, the first that does not ease it, ends there: an abort
    with InternalError and the bytes of that step, anything else with RemoteError and no more bytes.
   */
  lemma {:induction false} FirstTrouble(script: seq<Step>, hasAbort: bool, n: nat, left: nat, k: nat)
    requires k < |script| && (forall i :: 0 <= i < k ==> Eases(script[i], hasAbort)) && !Eases(script[k], hasAbort)
    requires Min(Offered(script, k), left) < n
    ensures var aborted := script[k].outcome.Moved? || script[k].outcome == Again;
      Wait(script, hasAbort, n, left)
        == Waited(if aborted then InternalError else RemoteError, Min(Offered(script, k + 1), Min(n, left)),
                  script[k + 1..])
  {
    if k == 0 {
      TroubledWait(script, hasAbort, n, left);
      assert Offered(script[1..], 0) == 0;
    } else {
      var g, rest := Gift(script[0]), script[1..];
      var m := Min(g, Min(n, left));
      var n': nat, left': nat := n - m, left - m;
      assert rest[k..] == script[k + 1..];
      EasedWait(script, hasAbort, n, left, m, n', left');
      MinSplit(g, Offered(rest, k - 1), n, left, m, n', left');
      FirstTrouble(rest, hasAbort, n', left', k - 1);
      TroubleAfter(script, n, left, k, m, n', left');
    }
  }

  lemma TroubleAfter(script: seq<Step>, n: nat, left: nat, k: nat, m: nat, n': nat, left': nat)
    requires 0 < k < |script| && Min(Gift(script[0]), left) < n
    requires m == Min(Gift(script[0]), Min(n, left)) && n == m + n' && left == m + left'
    ensures m + Min(Offered(script[1..], k), Min(n', left')) == Min(Offered(script, k + 1), Min(n, left))
  {
    MinSplit(Gift(script[0]), Offered(script[1..], k), n, left, m, n', left');
  }

  /** While all steps ease it and not all bytes have come, it goes on. */
  lemma {:induction false} StillWaiting(script: seq<Step>, hasAbort: bool, n: nat, left: nat)
    requires forall i :: 0 <= i < |script| ==> Eases(script[i], hasAbort)
    requires Min(Offered(script, |script|), left) < n
    ensures Wait(script, hasAbort, n, left) == Waited(Waiting, Min(Offered(script, |script|), left), [])
    decreases |script|
  {
    if script != [] {
      var g, rest := Gift(script[0]), script[1..];
      var m := Min(g, Min(n, left));
      var n': nat, left': nat := n - m, left - m;
      EasedWait(script, hasAbort, n, left, m, n', left');
      MinSplit(g, Offered(rest, |rest|), n, left, m, n', left');
      StillWaiting(rest, hasAbort, n', left');
    }
  }

  /** What an asynchronous send phase returns, stores in the counter, has really sent, and leaves of the script. */
  datatype Sending = Sending(code: Code, counter: nat, end: nat, script: seq<Step>)

  function SendPhase(counter: nat, size: nat, script: seq<Step>, hasAbort: bool): (r: Sending)
    requires counter <= size
    ensures r.counter <= r.end <= size && r.script == Rest(script) && (r.code == Waiting <==> script == [])
  {
    var t := Try(script, hasAbort, size - counter);
    if t.code != Success then Sending(t.code, counter, counter + t.moved, Rest(script))
    else if t.closed then Sending(RemoteError, counter, counter, Rest(script))
    else Sending(Success, counter + t.moved, counter + t.moved, Rest(script))
  }

  /** Magic, then type if the magic is out. */
  function SendPhases(counter: nat, script: seq<Step>, hasAbort: bool): (r: Sending)
    requires counter < MAGIC_SIZE + TYPE_SIZE
    ensures r.counter <= r.end <= MAGIC_SIZE + TYPE_SIZE
    ensures |r.script| <= |script| && (r.code != Waiting ==> |r.script| < |script|)
  {
    if counter >= MAGIC_SIZE then SendPhase(counter, MAGIC_SIZE + TYPE_SIZE, script, hasAbort)
    else
      var r := SendPhase(counter, MAGIC_SIZE, script, hasAbort);
      if r.code != Success || r.counter < MAGIC_SIZE then r
      else SendPhase(MAGIC_SIZE, MAGIC_SIZE + TYPE_SIZE, r.script, hasAbort)
  }

  /** Step `k` moves bytes, `left` being there to move, and meets the abort flag. */
  predicate AbortedMove(script: seq<Step>, hasAbort: bool, k: nat, left: nat) {
    k < |script| && hasAbort && script[k].abort && script[k].outcome.Moved? && script[k].outcome.n > 0 && left > 0
  }

  /** The first step moves `limit` bytes, `left` being there, and does not meet the abort flag. */
  predicate Completes(script: seq<Step>, hasAbort: bool, limit: nat, left: nat) {
    script != [] && !(hasAbort && script[0].abort) && script[0].outcome.Moved?
        && Min(script[0].outcome.n, left) >= limit
  }

  /** A send call loses count: the step it ends with moves bytes and is aborted. */
  predicate SendSlips(counter: nat, script: seq<Step>, hasAbort: bool) {
    var rest := MAGIC_SIZE - counter;
    var k := if rest > 0 && Completes(script, hasAbort, rest, rest) then 1 else 0;
    AbortedMove(script, hasAbort, k, 1)
  }

  /** The counter stored differs from what was sent exactly then. */
  lemma SendSlipsExactly(counter: nat, script: seq<Step>, hasAbort: bool)
    requires counter < MAGIC_SIZE + TYPE_SIZE
    ensures var r := SendPhases(counter, script, hasAbort);
      && (r.counter != r.end <==> SendSlips(counter, script, hasAbort))
      && (r.counter != r.end ==> r.code == InternalError)
  {}

  /** A receive call loses count; `right` is whether the magic that comes is the expected one. */
  predicate RecvSlips(counter: nat, left: nat, right: bool, script: seq<Step>, hasAbort: bool) {
    if counter < MAGIC_SIZE && right && Completes(script, hasAbort, MAGIC_SIZE - counter, left)
    then AbortedMove(script, hasAbort, 1, left - (MAGIC_SIZE - counter))
    else AbortedMove(script, hasAbort, 0, left)
  }

  lemma SplitSum(a: seq<byte>, b: seq<byte>, m: nat)
    requires m <= |b|
    ensures (a + b)[..|a| + m] == a + b[..m] && (a + b)[|a| + m..] == b[m..]
  {}

  lemma MiddleOfSum(a: seq<byte>, b: seq<byte>, c: seq<byte>, m: nat)
    requires m <= |c|
    ensures (a + b + c)[|a|..|a| + |b| + m] == b + c[..m]
  {}

  lemma SlicesJoin(s: seq<byte>, a: nat, b: nat, c: nat)
    requires a <= b <= c <= |s|
    ensures s[a..b] + s[b..c] == s[a..c]
  {}

  lemma SliceOfSlice(s: seq<byte>, base: nat, len: nat, from: nat, to: nat)
    requires base + len <= |s| && from <= to <= len
    ensures s[base..base + len][from..to] == s[base + from..base + to]
  {
    var a, b := s[base..base + len][from..to], s[base + from..base + to];
    assert |a| == |b| && forall i :: 0 <= i < |a| ==> a[i] == b[i];
  }

  /** The buffer after `bytes` were received into it. */
  function Stored(buf: seq<byte>, at: nat, bytes: seq<byte>): (r: seq<byte>)
    requires at + |bytes| <= |buf|
    ensures |r| == |buf|
  {
    buf[..at] + bytes + buf[at + |bytes|..]
  }

  lemma StoredAt(buf: seq<byte>, from: nat, at: nat, bytes: seq<byte>)
    requires from <= at && at + |bytes| <= |buf|
    ensures Stored(buf, at, bytes)[..from] == buf[..from]
    ensures Stored(buf, at, bytes)[from..at + |bytes|] == buf[from..at] + bytes
  {}

  /** The first `n` bytes of a buffer refilled from `from` on. */
  lemma Refilled(before: seq<byte>, buf: seq<byte>, from: nat, n: nat, tail: seq<byte>)
    requires from <= n <= |buf| && from <= |before| && buf[..from] == before[..from]
    ensures (buf + tail)[..n] == before[..from] + buf[from..n]
  {}

  class Socket {
    const magic: Magic
    const kind: Type
    const asyncFlag: bool
    const hasAbort: bool
    const customRetry: bool
    const retryCnt: int
    var state: State
    var finalizeCounter: nat
    var finalizeBuffer: seq<byte>
    var errorRetries: int
    // the world
    var script: seq<Step>
    var peers: seq<seq<byte>>        // what the peers not yet accepted will send
    var stream: seq<byte>            // what the current peer has yet to send
    ghost var received: seq<byte>    // bytes taken from the current peer
    var sent: seq<byte>              // bytes given to the peer

    /** ncclSocketInit */
    constructor (magic: Magic, kind: Type, asyncFlag: bool, hasAbort: bool, customRetry: bool, retryCnt: int,
                 script: seq<Step>, peers: seq<seq<byte>>)
      ensures Valid() && state == Initialized && finalizeCounter == 0
      ensures this.magic == magic && this.kind == kind && this.asyncFlag == asyncFlag && this.hasAbort == hasAbort
      ensures this.script == script && this.peers == peers && sent == [] && received == []
    {
      this.magic, this.kind, this.asyncFlag, this.hasAbort := magic, kind, asyncFlag, hasAbort;
      this.customRetry, this.retryCnt := customRetry, retryCnt;
      state, finalizeCounter, finalizeBuffer, errorRetries := Initialized, 0, seq(MAGIC_SIZE, i => 0), 0;
      this.script, this.peers, stream, received, sent := script, peers, [], [], [];
    }

    /** recv for up to `limit` bytes, what its result means, and the test of the abort flag. */
    method Recv(limit: nat) returns (code: Code, closed: bool, bytes: seq<byte>)
      requires limit > 0
      modifies this`script, this`stream, this`received
      ensures script == Rest(old(script)) && old(stream) == bytes + stream && received == old(received) + bytes
      ensures Attempt(code, closed, |bytes|) == Try(old(script), hasAbort, Min(limit, |old(stream)|))
    {
      bytes := [];
      if script == [] {
        return Waiting, false, [];
      }
      var step := script[0];
      script := script[1..];
      match step.outcome {
        case Moved(n) =>
          var k := Min(n, Min(limit, |stream|));
          bytes, stream := stream[..k], stream[k..];
          received := received + bytes;
        case Again =>
        case HangUp => return Success, true, [];
        case _ => return RemoteError, false, [];
      }
      code, closed := if hasAbort && step.abort then InternalError else Success, false;
    }

    /** Since `received0` and `stream0`, exactly `got` was taken from the stream. */
    ghost predicate Taken(got: seq<byte>, received0: seq<byte>, stream0: seq<byte>)
      reads this
    {
      received == received0 + got && stream0 == got + stream
    }

    /** One turn of the loop below, which began at `from` with `before`, `received0` and `stream0`. */
    method RecvNext(buf: seq<byte>, ghost from: nat, at: nat, ghost before: seq<Step>, ghost received0: seq<byte>,
                    ghost stream0: seq<byte>) returns (code: Code, closed: bool, buf': seq<byte>, at': nat)
      requires from <= at < |buf| && Taken(buf[from..at], received0, stream0)
      requires Begins(before, hasAbort, |buf| - from, |stream0|, Attempt(Success, false, at - from), script)
      modifies this`script, this`stream, this`received
      ensures |buf'| == |buf| && at <= at' <= |buf| && script == Rest(old(script))
      ensures buf'[..from] == buf[..from] && Taken(buf'[from..at'], received0, stream0)
      ensures Attempt(code, closed, at' - at) == Try(old(script), hasAbort, Min(|buf| - at, |old(stream)|))
      ensures Begins(before, hasAbort, |buf| - from, |stream0|, Attempt(code, closed, at' - from), script)
    {
      var bytes;
      code, closed, bytes := Recv(|buf| - at);
      buf', at' := Stored(buf, at, bytes), at + |bytes|;
      StoredAt(buf, from, at, bytes);
      assert stream0 == buf[from..at] + bytes + stream;
      ghost var t := Attempt(code, closed, |bytes|);
      FirstAttempt(old(script), hasAbort, |buf| - at, |old(stream)|, t, script);
      Continued(before, hasAbort, |buf| - from, |stream0|, at - from, old(script),
                |buf| - at, |old(stream)|, t, script, Attempt(code, closed, at' - from));
    }

    /** ncclOsSocketProgressOpt for receiving: fill `buf` from `offset` on. */
    method ProgressRecv(buf: seq<byte>, offset: nat) returns (code: Code, closed: bool, buf': seq<byte>, offset': nat)
      requires offset < |buf|
      modifies this`script, this`stream, this`received
      ensures |buf'| == |buf| && offset <= offset' <= |buf| && buf'[..offset] == buf[..offset]
      ensures Taken(buf'[offset..offset'], old(received), old(stream))
      ensures code in {Success, RemoteError, InternalError, Waiting}
      ensures closed ==> code == Success
      ensures closed || code in {RemoteError, Waiting} ==> offset' < |buf|
      ensures old(script) != [] && old(script)[0].outcome == HangUp ==> closed
      ensures asyncFlag ==>
        && script == Rest(old(script))
        && Attempt(code, closed, offset' - offset) == Try(old(script), hasAbort, Min(|buf| - offset, |old(stream)|))
      ensures Begins(old(script), hasAbort, |buf| - offset, |old(stream)|, Attempt(code, closed, offset' - offset),
                     script)
      ensures code == InternalError ==> hasAbort
      ensures |script| <= |old(script)| && (code != Waiting ==> |script| < |old(script)|)
    {
      NothingYet(script, hasAbort, |buf| - offset, |stream|);
      closed, buf', offset' := false, buf, offset;
      while true
        invariant |buf'| == |buf| && offset <= offset' < |buf| && buf'[..offset] == buf[..offset]
        invariant Taken(buf'[offset..offset'], old(received), old(stream))
        invariant |script| <= |old(script)|
        invariant script == old(script) || old(script)[0].outcome != HangUp
        invariant asyncFlag ==> offset' == offset && script == old(script) && stream == old(stream)
        invariant Begins(old(script), hasAbort, |buf| - offset, |old(stream)|,
                         Attempt(Success, false, offset' - offset), script)
        decreases |script|
      {
        var at := offset';
        code, closed, buf', offset' := RecvNext(buf', offset, at, old(script), old(received), old(stream));
        if code != Success || closed || asyncFlag || offset' == at || offset' == |buf'| {
          return;
        }
      }
    }

    /** send of `data`, what its result means, and the test of the abort flag. */
    method Send(data: seq<byte>) returns (code: Code, closed: bool, k: nat)
      requires data != []
      modifies this`script, this`sent
      ensures script == Rest(old(script)) && k <= |data| && sent == old(sent) + data[..k]
      ensures Attempt(code, closed, k) == Try(old(script), hasAbort, |data|)
    {
      k := 0;
      if script == [] {
        return Waiting, false, 0;
      }
      var step := script[0];
      script := script[1..];
      match step.outcome {
        case Moved(n) =>
          k := Min(n, |data|);
          sent := sent + data[..k];
        case Again =>
        case HangUp => return Success, true, 0;
        case _ => return RemoteError, false, 0;
      }
      code, closed := if hasAbort && step.abort then InternalError else Success, false;
    }

    /** One turn of the loop below, which began at `from` with the script `before`. */
    method SendNext(data: seq<byte>, ghost from: nat, at: nat, ghost before: seq<Step>)
        returns (code: Code, closed: bool, at': nat)
      requires from <= at < |data|
      requires Begins(before, hasAbort, |data| - from, |data| - from, Attempt(Success, false, at - from), script)
      modifies this`script, this`sent
      ensures at <= at' <= |data| && script == Rest(old(script)) && sent == old(sent) + data[at..at']
      ensures data[from..at'] == data[from..at] + data[at..at']
      ensures Attempt(code, closed, at' - at) == Try(old(script), hasAbort, |data| - at)
      ensures Begins(before, hasAbort, |data| - from, |data| - from, Attempt(code, closed, at' - from), script)
    {
      var k;
      code, closed, k := Send(data[at..]);
      at' := at + k;
      assert data[at..][..k] == data[at..at'];
      ghost var t := Attempt(code, closed, k);
      FirstAttempt(old(script), hasAbort, |data| - at, |data| - at, t, script);
      Continued(before, hasAbort, |data| - from, |data| - from, at - from, old(script),
                |data| - at, |data| - at, t, script, Attempt(code, closed, at' - from));
    }

    /** ncclOsSocketProgressOpt for sending `data` from `offset` on. */
    method ProgressSend(data: seq<byte>, offset: nat) returns (code: Code, closed: bool, offset': nat)
      requires offset < |data|
      modifies this`script, this`sent
      ensures offset <= offset' <= |data| && sent == old(sent) + data[offset..offset']
      ensures code in {Success, RemoteError, InternalError, Waiting}
      ensures closed ==> code == Success && offset' < |data|
      ensures asyncFlag ==>
        && script == Rest(old(script))
        && Attempt(code, closed, offset' - offset) == Try(old(script), hasAbort, |data| - offset)
      ensures Begins(old(script), hasAbort, |data| - offset, |data| - offset, Attempt(code, closed, offset' - offset),
                     script)
      ensures code == InternalError ==> hasAbort
      ensures |script| <= |old(script)| && (code != Waiting ==> |script| < |old(script)|)
    {
      NothingYet(script, hasAbort, |data| - offset, |data| - offset);
      closed, offset' := false, offset;
      while true
        invariant offset <= offset' < |data| && sent == old(sent) + data[offset..offset']
        invariant |script| <= |old(script)|
        invariant asyncFlag ==> offset' == offset && script == old(script)
        invariant Begins(old(script), hasAbort, |data| - offset, |data| - offset,
                         Attempt(Success, false, offset' - offset), script)
        decreases |script|
      {
        var at := offset';
        code, closed, offset' := SendNext(data, offset, at, old(script));
        if code != Success || closed || asyncFlag || offset' == at || offset' == |data| {
          return;
        }
      }
    }

    /** socketWait for receiving `n` bytes. */
    method WaitRecv(n: nat) returns (code: Code, got: seq<byte>)
      modifies this`script, this`stream, this`received
      ensures received == old(received) + got && old(stream) == got + stream
      ensures code in {Success, RemoteError, InternalError, Waiting}
      ensures |got| <= n && (code == Success ==> |got| == n)
      ensures code == RemoteError ==> |got| < n
      ensures Begins(old(script), hasAbort, n, |old(stream)|, Attempt(code, false, |got|), script)
      ensures code == InternalError ==> hasAbort
      ensures |script| <= |old(script)| && (n > 0 && code != Waiting ==> |script| < |old(script)|)
    {
      ghost var left := |stream|;
      var offset, buf := 0, seq(n, i => 0);
      while offset < n
        invariant offset <= n == |buf|
        invariant received == old(received) + buf[..offset] && old(stream) == buf[..offset] + stream
        invariant Begins(old(script), hasAbort, n, left, Attempt(Success, false, offset), script)
        invariant |script| <= |old(script)| && (offset > 0 ==> |script| < |old(script)|)
        decreases |script|, n - offset
      {
        ghost var before, from, between := buf[..offset], offset, script;
        var closed;
        code, closed, buf, offset := ProgressRecv(buf, offset);
        Continued(old(script), hasAbort, n, left, from, between, n - from, left - from,
                  Attempt(code, closed, offset - from), script, Attempt(code, closed, offset));
        assert buf[..offset] == before + buf[from..offset];
        if closed {
          ClosedIsError(old(script), hasAbort, n, left, offset, script);
          return RemoteError, buf[..offset];
        }
        if code != Success {
          return code, buf[..offset];
        }
      }
      return Success, buf[..offset];
    }

    /** socketWait for sending `data`. */
    method WaitSend(data: seq<byte>) returns (code: Code, ghost n: nat)
      modifies this`script, this`sent
      ensures n <= |data| && sent == old(sent) + data[..n] && (code == Success ==> n == |data|)
      ensures Begins(old(script), hasAbort, |data|, |data|, Attempt(code, false, n), script)
      ensures code in {Success, RemoteError, InternalError, Waiting}
      ensures code == InternalError ==> hasAbort
      ensures |script| <= |old(script)| && (data != [] && code != Waiting ==> |script| < |old(script)|)
    {
      var offset := 0;
      while offset < |data|
        invariant offset <= |data| && sent == old(sent) + data[..offset]
        invariant Begins(old(script), hasAbort, |data|, |data|, Attempt(Success, false, offset), script)
        invariant |script| <= |old(script)| && (offset > 0 ==> |script| < |old(script)|)
        decreases |script|, |data| - offset
      {
        ghost var from, between := offset, script;
        var closed;
        code, closed, offset := ProgressSend(data, offset);
        Continued(old(script), hasAbort, |data|, |data|, from, between, |data| - from, |data| - from,
                  Attempt(code, closed, offset - from), script, Attempt(code, closed, offset));
        assert data[..offset] == data[..from] + data[from..offset];
        if closed {
          ClosedIsError(old(script), hasAbort, |data|, |data|, offset, script);
          return RemoteError, offset;
        }
        if code != Success {
          return code, offset;
        }
      }
      return Success, offset;
    }

    // --------------------------------------------------------------------- invariants

    /** What an accepting socket has read, and where its counter and its buffer stand. */
    ghost predicate Reading()
      reads this
    {
      if asyncFlag then
        && |finalizeBuffer| == MAGIC_SIZE && |received| == finalizeCounter < MAGIC_SIZE + TYPE_SIZE
        && (finalizeCounter < MAGIC_SIZE ==> finalizeBuffer[..finalizeCounter] == received)
        && (finalizeCounter >= MAGIC_SIZE ==>
              && received[..MAGIC_SIZE] == magic
              && finalizeBuffer[..finalizeCounter - MAGIC_SIZE] == received[MAGIC_SIZE..])
      else received == []
    }

    /** What a connecting socket has sent: the first `finalizeCounter` bytes of magic and type. */
    ghost predicate Writing()
      reads this
    {
      if asyncFlag then finalizeCounter < MAGIC_SIZE + TYPE_SIZE && sent == (magic + kind)[..finalizeCounter]
      else sent == []
    }

    ghost predicate Valid()
      reads this
    {
      |finalizeBuffer| == MAGIC_SIZE && match state
      case Accepting => finalizeCounter == 0 && sent == []
      case BadHandshake => finalizeCounter == 0 && sent == []
      case Accepted => sent == [] && Reading()
      case Connecting => finalizeCounter == 0 && sent == [] && received == []
      case ConnectPolling => finalizeCounter == 0 && sent == [] && received == []
      case Connected => received == [] && Writing()
      case Ready => (sent == magic + kind && received == []) || (received == magic + kind && sent == [])
      case Initialized => sent == [] && received == []
      case _ => true
    }

    /** An asynchronous call can be made, even after an abort lost count of the bytes moved. */
    predicate Resumable()
      reads this
    {
      asyncFlag && |finalizeBuffer| == MAGIC_SIZE && state in {Accepted, Connected}
          && finalizeCounter < MAGIC_SIZE + TYPE_SIZE
    }

    // --------------------------------------------------------------------- accepting

    /** ncclOsSocketResetAccept */
    method ResetAccept()
      modifies this`state, this`finalizeCounter
      ensures state == BadHandshake && finalizeCounter == 0
    {
      state, finalizeCounter := BadHandshake, 0;
    }

    /** The expected magic is what comes first. */
    predicate Right(bytes: seq<byte>) { |bytes| >= MAGIC_SIZE && bytes[..MAGIC_SIZE] == magic }

    /**
      What an asynchronous read of the magic has done when it did not get the whole of the right one:
      an error, an abort among them, leaves the counter at `c` whatever was taken from the stream.
     */
    ghost predicate AfterMagic(c: nat, buffer0: seq<byte>, received0: seq<byte>, stream0: seq<byte>,
                               before: seq<Step>, code: Code)
      reads this
    {
      c < MAGIC_SIZE && |buffer0| == MAGIC_SIZE && |finalizeBuffer| == MAGIC_SIZE &&
      var t := Try(before, hasAbort, Min(MAGIC_SIZE - c, |stream0|));
      && (t.code != Success ==>
            && code == t.code && state == Accepted && finalizeCounter == c && script == Rest(before)
            && received == received0 + stream0[..t.moved] && stream == stream0[t.moved..])
      && (Rejects(c, buffer0, stream0, before) ==>
            && code == Success && state == BadHandshake && finalizeCounter == 0
            && received == received0 + stream0[..t.moved])
    }

    /** The read completes eight bytes that are not the magic. */
    ghost predicate Rejects(c: nat, buffer0: seq<byte>, stream0: seq<byte>, before: seq<Step>) {
      c < MAGIC_SIZE && |buffer0| == MAGIC_SIZE &&
      var t := Try(before, hasAbort, Min(MAGIC_SIZE - c, |stream0|));
      t.code == Success && c + t.moved == MAGIC_SIZE && buffer0[..c] + stream0[..t.moved] != magic
    }

    /** What one socketFinalizeAccept comes to, `c` bytes having been taken of the peer's `all`. */
    function Receive(c: nat, all: seq<byte>, before: seq<Step>): (g: Got)
      requires c <= |all| && if asyncFlag then c < MAGIC_SIZE + TYPE_SIZE else c == 0
      ensures g.state in {Accepted, BadHandshake, Ready} && (g.code != Success ==> g.state == Accepted)
      ensures c <= g.moved <= |all| && |g.script| <= |before| && (g.code == Success ==> |g.script| < |before|)
      ensures g.state == Accepted && g.code == Success ==> asyncFlag
    {
      if !asyncFlag then
        var w := RecvAll(|all|, Right(all), before, hasAbort);
        var end := if w.code != Success then Accepted
                   else if all[..w.moved] == magic + kind then Ready else BadHandshake;
        Got(w.code, end, w.moved, w.script)
      else if c < MAGIC_SIZE then ReceiveOnce(c, all, before)
      else ReceiveType(c, all, before)
    }

    /** The asynchronous case: one read of the magic and, if it is whole and right, one of the type. */
    function ReceiveOnce(c: nat, all: seq<byte>, before: seq<Step>): (g: Got)
      requires c < MAGIC_SIZE && c <= |all|
      ensures g.state in {Accepted, BadHandshake, Ready} && (g.code != Success ==> g.state == Accepted)
      ensures c <= g.moved <= |all| && |g.script| <= |before| && (g.code == Success ==> |g.script| < |before|)
    {
      var t := Try(before, hasAbort, Min(MAGIC_SIZE - c, |all| - c));
      var n := c + t.moved;
      if t.code != Success || (!t.closed && n < MAGIC_SIZE) then Got(t.code, Accepted, n, Rest(before))
      else if t.closed || all[..MAGIC_SIZE] != magic then Got(Success, BadHandshake, n, Rest(before))
      else ReceiveType(MAGIC_SIZE, all, Rest(before))
    }

    function ReceiveType(c: nat, all: seq<byte>, before: seq<Step>): (g: Got)
      requires MAGIC_SIZE <= c < MAGIC_SIZE + TYPE_SIZE && c <= |all|
      ensures g.state in {Accepted, BadHandshake, Ready} && (g.code != Success ==> g.state == Accepted)
      ensures c <= g.moved <= |all|
      ensures |g.script| <= |before| && (g.code == Success ==> |g.script| < |before|)
    {
      var t := Try(before, hasAbort, Min(MAGIC_SIZE + TYPE_SIZE - c, |all| - c));
      var n := c + t.moved;
      var end := if t.code != Success || t.closed || n < MAGIC_SIZE + TYPE_SIZE then Accepted
                 else if all[MAGIC_SIZE..n] == kind then Ready else BadHandshake;
      Got(if t.closed then RemoteError else t.code, end, n, Rest(before))
    }

    predicate Receives(received0: seq<byte>, stream0: seq<byte>, before: seq<Step>, g: Got) {
      && (if asyncFlag then |received0| < MAGIC_SIZE + TYPE_SIZE else received0 == [])
      && g == Receive(|received0|, received0 + stream0, before)
    }

    /** The socket is where `g` says, having taken the first `g.moved` bytes of `all`. */
    ghost predicate AfterReceive(all: seq<byte>, g: Got, code: Code)
      reads this
    {
      && code == g.code && state == g.state && script == g.script
      && g.moved <= |all| && received == all[..g.moved] && stream == all[g.moved..]
    }

    /**
      socketFinalizeAccept. A successful call leaves the socket where the bytes received lead, or
      resets it if the peer went away before its magic was complete. Counter and bytes part company
      exactly when an abort meets a step that moves bytes; a synchronous call that fails has lost the
      bytes it took, if any.
     */
    method FinalizeAccept() returns (code: Code)
      requires state == Accepted && (Valid() || Resumable())
      modifies this`state, this`finalizeCounter, this`finalizeBuffer, this`script, this`stream, this`received
      ensures asyncFlag && old(finalizeCounter) < MAGIC_SIZE ==>
        AfterMagic(old(finalizeCounter), old(finalizeBuffer), old(received), old(stream), old(script), code)
      ensures asyncFlag && old(script) != [] && old(script)[0].outcome == HangUp ==>
        if old(finalizeCounter) < MAGIC_SIZE then code == Success && state == BadHandshake else code == RemoteError
      ensures old(Valid()) && asyncFlag ==>
        var right := Right(old(received) + old(stream));
        (Valid() <==> !RecvSlips(old(finalizeCounter), |old(stream)|, right, old(script), hasAbort))
      ensures old(Valid()) && !asyncFlag ==> AfterReceiving(old(stream), old(script), code)
      ensures old(Valid()) ==>
        var all := old(received) + old(stream);
        AfterReceive(all, Receive(|old(received)|, all, old(script)), code)
      ensures old(Valid()) && asyncFlag && code != InternalError ==> Valid()
      ensures code != Success ==> state == Accepted
      ensures state in {Accepted, BadHandshake, Ready} && |finalizeBuffer| == MAGIC_SIZE
      ensures code == Success && !asyncFlag ==> state != Accepted
      ensures old(Valid()) && code == Success ==> state == Verdict(received, magic, kind) || GoneEarly()
      ensures old(received) + old(stream) == received + stream
      ensures |old(received)| <= |received|
      ensures |script| <= |old(script)| && (code != Waiting ==> |script| < |old(script)|)
    {
      if asyncFlag {
        code := FinalizeAcceptAsync();
      } else {
        code := FinalizeAcceptSync();
      }
    }

    /** Why a peer's bytes led to a reset: they are wrong, or there were not enough of them. */
    ghost predicate TurnedAway()
      reads this
    {
      Verdict(received, magic, kind) == BadHandshake || |received| < MAGIC_SIZE
          || (hasAbort && |received| == MAGIC_SIZE)
    }

    /** The peer was given up before its magic was seen whole, or at an abort. */
    ghost predicate GoneEarly()
      reads this
    {
      state == BadHandshake && (|received| < MAGIC_SIZE || (hasAbort && |received| == MAGIC_SIZE))
    }

    /** What a synchronous accept has done, and whether counter and bytes still agree. */
    ghost predicate AfterReceiving(stream0: seq<byte>, before: seq<Step>, code: Code)
      reads this
    {
      var w := RecvAll(|stream0|, Right(stream0), before, hasAbort);
      code == w.code && script == w.script && Took(w.moved, [], stream0) && (Valid() <==> !Stranded(w))
    }

    method FinalizeAcceptSync() returns (code: Code)
      requires Valid() && state == Accepted && !asyncFlag
      modifies this`state, this`finalizeCounter, this`script, this`stream, this`received
      ensures AfterReceiving(old(stream), old(script), code)
      ensures AfterReceive(old(stream), Receive(0, old(stream), old(script)), code)
      ensures code == Success ==> state == Verdict(received, magic, kind) || GoneEarly()
      ensures if code == Success then state in {BadHandshake, Ready} else state == Accepted
      ensures old(received) + old(stream) == received + stream
      ensures |script| <= |old(script)| && (code != Waiting ==> |script| < |old(script)|)
    {
      var right;
      code, right := RecvBoth();
      TookKeeps(|received|, [], old(stream));
      if code != Success {
        return;
      }
      if right {
        state := Ready;
      } else {
        ResetAccept();
      }
    }

    /** The two synchronous reads; `right` if both fields are as expected. */
    method RecvBoth() returns (code: Code, right: bool)
      requires received == []
      modifies this`script, this`stream, this`received
      ensures RecvAll(|old(stream)|, Right(old(stream)), old(script), hasAbort) == Waited(code, |received|, script)
      ensures Took(|received|, [], old(stream))
      ensures code == Success && right ==> received == magic + kind
      ensures code == Success && !right ==> TurnedAway()
      ensures |script| <= |old(script)| && (code != Waiting ==> |script| < |old(script)|)
    {
      var got, got2;
      code, got := WaitRecv(MAGIC_SIZE);
      if code == Waiting {
        RecvStops(|old(stream)|, Right(old(stream)), old(script), hasAbort, code, |got|, script);
        return code, false;
      }
      if code != Success || got != magic {
        RecvStops(|old(stream)|, Right(old(stream)), old(script), hasAbort, code, |got|, script);
        return Success, false;
      }
      ghost var between, left := script, |stream|;
      code, got2 := WaitRecv(TYPE_SIZE);
      RecvGoesOn(|old(stream)|, old(script), hasAbort, between, code, |got2|, script);
      assert received == magic + got2 && old(stream) == received + stream;
      right := got2 == kind;
      if code == Success { WholeVerdict(got2); }
    }

    lemma WholeVerdict(got: Type)
      ensures Verdict(magic + got, magic, kind) == if got == kind then Ready else BadHandshake
    {
      assert (magic + got)[..MAGIC_SIZE] == magic && (magic + got)[MAGIC_SIZE..] == got;
      assert (magic + kind)[MAGIC_SIZE..] == kind;
    }

    method FinalizeAcceptAsync() returns (code: Code)
      requires Resumable() && state == Accepted
      modifies this`state, this`finalizeCounter, this`finalizeBuffer, this`script, this`stream, this`received
      ensures old(finalizeCounter) < MAGIC_SIZE ==>
        AfterMagic(old(finalizeCounter), old(finalizeBuffer), old(received), old(stream), old(script), code)
      ensures old(script) != [] && old(script)[0].outcome == HangUp ==>
        if old(finalizeCounter) < MAGIC_SIZE then code == Success && state == BadHandshake else code == RemoteError
      ensures old(Valid()) ==>
        var right := Right(old(received) + old(stream));
        (Valid() <==> !RecvSlips(old(finalizeCounter), |old(stream)|, right, old(script), hasAbort))
      ensures old(Valid()) ==>
        var all := old(received) + old(stream);
        AfterReceive(all, Receive(|old(received)|, all, old(script)), code)
      ensures old(Valid()) && code != InternalError ==> Valid()
      ensures code != Success ==> state == Accepted
      ensures state in {Accepted, BadHandshake, Ready} && |finalizeBuffer| == MAGIC_SIZE
      ensures old(Valid()) && code == Success ==> state == Verdict(received, magic, kind) || GoneEarly()
      ensures old(received) + old(stream) == received + stream
      ensures |old(received)| <= |received|
      ensures |script| <= |old(script)| && (code != Waiting ==> |script| < |old(script)|)
    {
      ghost var ok := Valid();
      if finalizeCounter < MAGIC_SIZE {
        code := MagicPhase();
        if code != Success || state == BadHandshake || finalizeCounter < MAGIC_SIZE {
          return;
        }
      }
      code := TypePhase();
    }

    /** The type, in the same way. */
    method TypePhase() returns (code: Code)
      requires Resumable() && state == Accepted && finalizeCounter >= MAGIC_SIZE
      modifies this`state, this`finalizeCounter, this`finalizeBuffer, this`script, this`stream, this`received
      ensures state in {Accepted, BadHandshake, Ready} && |finalizeBuffer| == MAGIC_SIZE
      ensures script == Rest(old(script)) && (code == Waiting <==> old(script) == [])
      ensures code != Success ==> state == Accepted
      ensures old(script) != [] && old(script)[0].outcome == HangUp ==> code == RemoteError
      ensures old(received) + old(stream) == received + stream && |old(received)| <= |received|
      ensures old(Valid()) ==> (Valid() <==> !AbortedMove(old(script), hasAbort, 0, |old(stream)|))
      ensures old(Valid()) && code != InternalError ==> Valid()
      ensures old(Valid()) && code == Success ==> state == Verdict(received, magic, kind)
      ensures old(Valid()) ==>
        var c, all := |old(received)|, old(received) + old(stream);
        MAGIC_SIZE <= c < MAGIC_SIZE + TYPE_SIZE && AfterReceive(all, ReceiveType(c, all, old(script)), code)
    {
      ghost var ok := Valid();
      code := ReadType();
      TookKeeps(Try(old(script), hasAbort, Min(MAGIC_SIZE + TYPE_SIZE - old(finalizeCounter), |old(stream)|)).moved,
                old(received), old(stream));
      if ok {
        assert old(received) == magic + old(finalizeBuffer)[..old(finalizeCounter) - MAGIC_SIZE];
        TypeReadKeeps(old(finalizeCounter), old(finalizeBuffer), old(received), old(stream), old(script), code);
        TypeIsReceive(old(finalizeCounter), old(finalizeBuffer), old(received), old(stream), old(script), code);
      }
    }

    /** The magic, and what it means for a socket that had not lost count. */
    method MagicPhase() returns (code: Code)
      requires Resumable() && state == Accepted && finalizeCounter < MAGIC_SIZE
      modifies this`state, this`finalizeCounter, this`finalizeBuffer, this`script, this`stream, this`received
      ensures AfterMagic(old(finalizeCounter), old(finalizeBuffer), old(received), old(stream), old(script), code)
      ensures state in {Accepted, BadHandshake} && |finalizeBuffer| == MAGIC_SIZE && finalizeCounter <= MAGIC_SIZE
      ensures script == Rest(old(script)) && (code == Waiting <==> old(script) == [])
      ensures code != Success ==> state == Accepted
      ensures old(script) != [] && old(script)[0].outcome == HangUp ==> code == Success && state == BadHandshake
      ensures finalizeCounter == MAGIC_SIZE ==> |stream| == |old(stream)| - (MAGIC_SIZE - old(finalizeCounter))
      ensures old(received) + old(stream) == received + stream && |old(received)| <= |received|
      ensures old(Valid()) ==> (Valid() <==> !AbortedMove(old(script), hasAbort, 0, |old(stream)|))
      ensures old(Valid()) && code != InternalError ==> Valid()
      ensures old(Valid()) && code == Success ==> state == Verdict(received, magic, kind) || GoneEarly()
      ensures old(Valid()) ==>
        (code == Success && state == Accepted && finalizeCounter == MAGIC_SIZE <==>
          && Completes(old(script), hasAbort, MAGIC_SIZE - old(finalizeCounter), |old(stream)|)
          && Right(old(received) + old(stream)))
      ensures old(Valid()) ==>
        var c, all := |old(received)|, old(received) + old(stream);
        c < MAGIC_SIZE && AfterMagicPhase(c, all, old(script), code)
    {
      ghost var ok := Valid();
      code := ReadMagic();
      TookKeeps(Try(old(script), hasAbort, Min(MAGIC_SIZE - old(finalizeCounter), |old(stream)|)).moved,
                old(received), old(stream));
      if ok {
        MagicReadKeeps(old(finalizeCounter), old(finalizeBuffer), old(received), old(stream), old(script), code);
        MagicIsReceive(old(finalizeCounter), old(finalizeBuffer), old(received), old(stream), old(script), code);
      }
    }

    /** The bytes one read took from the stream. */
    ghost predicate Took(m: nat, received0: seq<byte>, stream0: seq<byte>)
      reads this
    {
      m <= |stream0| && received == received0 + stream0[..m] && stream == stream0[m..]
    }

    lemma TookKeeps(m: nat, received0: seq<byte>, stream0: seq<byte>)
      requires Took(m, received0, stream0)
      ensures received + stream == received0 + stream0 && |received0| <= |received|
    {
      assert stream0 == stream0[..m] + stream0[m..];
    }

    /** What one read of the magic from counter `c` has done. */
    ghost predicate MagicRead(c: nat, buffer0: seq<byte>, received0: seq<byte>, stream0: seq<byte>, before: seq<Step>,
                              code: Code)
      reads this
    {
      c < MAGIC_SIZE && |buffer0| == MAGIC_SIZE && |finalizeBuffer| == MAGIC_SIZE &&
      var t := Try(before, hasAbort, Min(MAGIC_SIZE - c, |stream0|));
      var got := buffer0[..c] + stream0[..t.moved];
      && code == t.code && script == Rest(before) && Took(t.moved, received0, stream0)
      && finalizeBuffer[..c + t.moved] == got
      && (if t.code != Success then state == Accepted && finalizeCounter == c
          else if t.closed || (|got| == MAGIC_SIZE && got != magic) then state == BadHandshake && finalizeCounter == 0
          else state == Accepted && finalizeCounter == c + t.moved)
    }

    /** The first phase: goes on only if the whole magic has arrived and is right. */
    method ReadMagic() returns (code: Code)
      requires Resumable() && state == Accepted && finalizeCounter < MAGIC_SIZE
      modifies this`state, this`finalizeCounter, this`finalizeBuffer, this`script, this`stream, this`received
      ensures MagicRead(old(finalizeCounter), old(finalizeBuffer), old(received), old(stream), old(script), code)
    {
      var closed, buf, n;
      code, closed, buf, n := ProgressRecv(finalizeBuffer, finalizeCounter);
      finalizeBuffer := buf;
      assert buf[..n] == buf[..finalizeCounter] + buf[finalizeCounter..n];
      if code != Success {
        return;
      }
      finalizeCounter := n;
      if n < MAGIC_SIZE {
        if closed {
          ResetAccept();
        }
        return;
      }
      assert buf[..n] == buf;
      if finalizeBuffer != magic {
        ResetAccept();
      }
    }

    /** From a state in which counter and bytes agreed, they agree afterwards unless an abort met a moving step. */
    lemma MagicReadKeeps(c: nat, buffer0: seq<byte>, received0: seq<byte>, stream0: seq<byte>, before: seq<Step>,
                         code: Code)
      requires asyncFlag && sent == []
      requires MagicRead(c, buffer0, received0, stream0, before, code) && received0 == buffer0[..c]
      ensures Valid() <==> !AbortedMove(before, hasAbort, 0, |stream0|)
      ensures code != InternalError ==> Valid()
      ensures code == Success ==> state == Verdict(received, magic, kind) || GoneEarly()
      ensures code == Success && state == Accepted && finalizeCounter == MAGIC_SIZE <==>
        Completes(before, hasAbort, MAGIC_SIZE - c, |stream0|) && Right(received0 + stream0)
    {
      var t := Try(before, hasAbort, Min(MAGIC_SIZE - c, |stream0|));
      assert received == finalizeBuffer[..c + t.moved];
      if c + t.moved == MAGIC_SIZE {
        assert (received0 + stream0)[..MAGIC_SIZE] == received;
      }
    }

    /** What one read of the type from counter `c` has done. */
    ghost predicate TypeRead(c: nat, buffer0: seq<byte>, received0: seq<byte>, stream0: seq<byte>, before: seq<Step>,
                             code: Code)
      reads this
    {
      MAGIC_SIZE <= c < MAGIC_SIZE + TYPE_SIZE && |buffer0| == MAGIC_SIZE && |finalizeBuffer| == MAGIC_SIZE &&
      var t := Try(before, hasAbort, Min(MAGIC_SIZE + TYPE_SIZE - c, |stream0|));
      var got := buffer0[..c - MAGIC_SIZE] + stream0[..t.moved];
      && code == (if t.closed then RemoteError else t.code) && script == Rest(before)
      && Took(t.moved, received0, stream0)
      && finalizeBuffer[..c - MAGIC_SIZE + t.moved] == got
      && (if code != Success then state == Accepted && finalizeCounter == c
          else if |got| < TYPE_SIZE then state == Accepted && finalizeCounter == c + t.moved
          else if got == kind then state == Ready
          else state == BadHandshake && finalizeCounter == 0)
    }

    /** Receives into the front of the buffer, where the type goes. */
    method RecvType(from: nat) returns (code: Code, closed: bool, n: nat)
      requires asyncFlag && |finalizeBuffer| == MAGIC_SIZE && from < TYPE_SIZE
      modifies this`finalizeBuffer, this`script, this`stream, this`received
      ensures |finalizeBuffer| == MAGIC_SIZE && from <= n <= TYPE_SIZE && script == Rest(old(script))
      ensures Attempt(code, closed, n - from) == Try(old(script), hasAbort, Min(TYPE_SIZE - from, |old(stream)|))
      ensures Took(n - from, old(received), old(stream))
      ensures finalizeBuffer[..n] == old(finalizeBuffer)[..from] + old(stream)[..n - from]
    {
      var buf;
      code, closed, buf, n := ProgressRecv(finalizeBuffer[..TYPE_SIZE], from);
      Refilled(finalizeBuffer, buf, from, n, finalizeBuffer[TYPE_SIZE..]);
      assert buf[from..n] == old(stream)[..n - from];
      finalizeBuffer := buf + finalizeBuffer[TYPE_SIZE..];
    }

    /** The second phase. */
    method ReadType() returns (code: Code)
      requires Resumable() && state == Accepted && finalizeCounter >= MAGIC_SIZE
      modifies this`state, this`finalizeCounter, this`finalizeBuffer, this`script, this`stream, this`received
      ensures TypeRead(old(finalizeCounter), old(finalizeBuffer), old(received), old(stream), old(script), code)
    {
      var closed, n;
      ghost var from := finalizeCounter - MAGIC_SIZE;
      code, closed, n := RecvType(finalizeCounter - MAGIC_SIZE);
      ghost var got := old(finalizeBuffer)[..from] + old(stream)[..n - from];
      assert finalizeBuffer[..n] == got && |got| == n;
      if code != Success {
        return;
      }
      if closed {
        return RemoteError;
      }
      finalizeCounter := n + MAGIC_SIZE;
      if n < TYPE_SIZE {
        return;
      }
      if finalizeBuffer[..TYPE_SIZE] != kind {
        ResetAccept();
      } else {
        state := Ready;
      }
    }

    /** The magic phase is all there is, or it has left the right magic and the type is to come. */
    ghost predicate AfterMagicPhase(c: nat, all: seq<byte>, before: seq<Step>, code: Code)
      requires c < MAGIC_SIZE && c <= |all|
      reads this
    {
      var g := ReceiveOnce(c, all, before);
      if code != Success || state == BadHandshake || finalizeCounter < MAGIC_SIZE then AfterReceive(all, g, code)
      else
        && script == Rest(before) && |all| >= MAGIC_SIZE && received == all[..MAGIC_SIZE] && stream == all[MAGIC_SIZE..]
        && g == ReceiveType(MAGIC_SIZE, all, script)
    }

    lemma MagicIsReceive(c: nat, buffer0: seq<byte>, received0: seq<byte>, stream0: seq<byte>, before: seq<Step>,
                         code: Code)
      requires MagicRead(c, buffer0, received0, stream0, before, code) && received0 == buffer0[..c]
      ensures AfterMagicPhase(c, received0 + stream0, before, code)
    {
      var all := received0 + stream0;
      var t := Try(before, hasAbort, Min(MAGIC_SIZE - c, |stream0|));
      SplitSum(received0, stream0, t.moved);
    }

    lemma TypeIsReceive(c: nat, buffer0: seq<byte>, received0: seq<byte>, stream0: seq<byte>, before: seq<Step>,
                        code: Code)
      requires TypeRead(c, buffer0, received0, stream0, before, code)
      requires received0 == magic + buffer0[..c - MAGIC_SIZE]
      ensures AfterReceive(received0 + stream0, ReceiveType(c, received0 + stream0, before), code)
    {
      var all := received0 + stream0;
      var t := Try(before, hasAbort, Min(MAGIC_SIZE + TYPE_SIZE - c, |stream0|));
      SplitSum(received0, stream0, t.moved);
      MiddleOfSum(magic, buffer0[..c - MAGIC_SIZE], stream0, t.moved);
    }

    lemma TypeReadKeeps(c: nat, buffer0: seq<byte>, received0: seq<byte>, stream0: seq<byte>, before: seq<Step>,
                        code: Code)
      requires asyncFlag && sent == [] && TypeRead(c, buffer0, received0, stream0, before, code)
      requires received0 == magic + buffer0[..c - MAGIC_SIZE]
      ensures Valid() <==> !AbortedMove(before, hasAbort, 0, |stream0|)
      ensures code != InternalError ==> Valid()
      ensures code == Success ==> state == Verdict(received, magic, kind)
    {
      var t := Try(before, hasAbort, Min(MAGIC_SIZE + TYPE_SIZE - c, |stream0|));
      assert received == magic + finalizeBuffer[..c - MAGIC_SIZE + t.moved];
      assert received[..MAGIC_SIZE] == magic && received[MAGIC_SIZE..] == finalizeBuffer[..c - MAGIC_SIZE + t.moved];
    }

    predicate Begin(before: seq<Step>, outcome: Outcome) { before != [] && before[0].outcome == outcome }

    /** A transient error is forgiven until it makes the retry count reach its limit; nobody there is no error. */
    function TryAcceptCode(before: seq<Step>, retries: int): Code {
      if before == [] then Waiting
      else if before[0].outcome.Moved? || before[0].outcome == Again then Success
      else if before[0].outcome == Transient && retries + 1 != retryCnt then Success
      else SystemError
    }

    /** ncclOsSocketTryAccept: a new connection starts with nothing read. */
    method TryAccept() returns (code: Code)
      requires Valid() && state == Accepting
      modifies this`state, this`errorRetries, this`script, this`peers, this`stream, this`received
      ensures Valid() && state in {Accepting, Accepted}
      ensures state == Accepted ==> code == Success && received == [] && old(peers) == [stream] + peers
      ensures state == Accepting ==> peers == old(peers)
      ensures old(script) != [] && old(script)[0].outcome.Moved? && peers == old(peers) ==> peers == []
      ensures script == Rest(old(script))
      ensures state == Accepted <==> Succeeds(old(script)) && old(peers) != []
      ensures code == TryAcceptCode(old(script), old(errorRetries))
      ensures errorRetries == old(errorRetries) + (if Begin(old(script), Transient) then 1 else 0)
      ensures code == Waiting ==> script == []
      ensures |script| <= |old(script)| && (code != Waiting ==> |script| < |old(script)|)
      ensures code in {Success, SystemError, Waiting}
    {
      if script == [] {
        return Waiting;
      }
      var outcome := script[0].outcome;
      script := script[1..];
      match outcome {
        case Moved(_) =>
          if peers != [] {
            stream, peers, received, state := peers[0], peers[1..], [], Accepted;
          }
        case Transient =>
          errorRetries := errorRetries + 1;
          if errorRetries == retryCnt {
            return SystemError;
          }
        case Again =>
        case _ => return SystemError;
      }
      return Success;
    }

    // --------------------------------------------------------------------- connecting

    /** A connection attempt that fails in a way that is tried again. */
    predicate Refuses(outcome: Outcome) { outcome == Again || outcome == Transient }

    /** socketConnectCheck; a retry makes a new descriptor, before anything was sent. */
    method ConnectCheck(outcome: Outcome) returns (code: Code)
      requires Valid() && state in {Connecting, ConnectPolling}
      modifies this`state, this`errorRetries
      ensures Valid() && state in {Connecting, ConnectPolling, Connected, Error}
      ensures state == Connected <==> outcome.Moved?
      ensures state == ConnectPolling <==> outcome == InProgress
      ensures code != Success <==> state == Error
      ensures code in {Success, SystemError, RemoteError}
      ensures code == SystemError <==> !Refuses(outcome) && !outcome.Moved? && outcome != InProgress
      ensures code == RemoteError <==> Refuses(outcome) && !customRetry && old(errorRetries) == retryCnt
      ensures Refuses(outcome) && code == Success ==> state == Connecting
      ensures errorRetries == old(errorRetries) + (if Refuses(outcome) && !customRetry then 1 else 0)
    {
      match outcome {
        case Moved(_) => state := Connected;
        case InProgress => state := ConnectPolling;
        case Again => code := ConnectRetry(); return;
        case Transient => code := ConnectRetry(); return;
        case _ => state := Error; return SystemError;
      }
      return Success;
    }

    method ConnectRetry() returns (code: Code)
      requires Valid() && state in {Connecting, ConnectPolling}
      modifies this`state, this`errorRetries
      ensures Valid() && (if code == Success then state == Connecting else state == Error && code == RemoteError)
      ensures code != Success <==> !customRetry && old(errorRetries) == retryCnt
      ensures errorRetries == old(errorRetries) + (if customRetry then 0 else 1)
    {
      if !customRetry {
        errorRetries := errorRetries + 1;
        if errorRetries - 1 == retryCnt {
          state := Error;
          return RemoteError;
        }
      }
      state := Connecting;
      return Success;
    }

    predicate LastRetry(retries: int) { !customRetry && retries == retryCnt }

    function Retried(retries: int): int { if customRetry then retries else retries + 1 }

    /** One connection attempt, or one poll of an attempt under way. */
    function Dial(before: seq<Step>, polling: bool, retries: int): (d: Dialled)
      ensures d.script == Rest(before) && (d.state == Connected ==> d.code == Success)
      ensures d.state in {Connecting, ConnectPolling, Connected, Error} && (d.state == Error ==> d.code != Success)
    {
      var was := if polling then ConnectPolling else Connecting;
      if before == [] then Dialled(Waiting, was, retries, [])
      else match before[0].outcome
        case Moved(_) => Dialled(Success, Connected, retries, before[1..])
        case InProgress => Dialled(Success, ConnectPolling, retries, before[1..])
        case Again => if polling then Dialled(Success, was, retries, before[1..]) else Refused(before[1..], retries)
        case Transient => Refused(before[1..], retries)
        case Broken => Dialled(SystemError, if polling then was else Error, retries, before[1..])
        case _ => Dialled(SystemError, Error, retries, before[1..])
    }

    /** A refused attempt is made again, until the retry count has reached its limit. */
    function Refused(after: seq<Step>, retries: int): Dialled {
      if LastRetry(retries) then Dialled(RemoteError, Error, Retried(retries), after)
      else Dialled(Success, Connecting, Retried(retries), after)
    }

    /** ncclOsSocketStartConnect, or ncclOsSocketPollConnect if `polling`. */
    method StartOrPoll(polling: bool) returns (code: Code)
      requires Valid() && state == if polling then ConnectPolling else Connecting
      modifies this`state, this`errorRetries, this`script
      ensures Valid() && state in {Connecting, ConnectPolling, Connected, Error}
      ensures code in {Success, SystemError, RemoteError, Waiting}
      ensures code == Waiting ==> state == old(state) && script == []
      ensures Dialled(code, state, errorRetries, script) == Dial(old(script), polling, old(errorRetries))
      ensures script == Rest(old(script))
      ensures |script| <= |old(script)| && (code != Waiting ==> |script| < |old(script)|)
    {
      if script == [] {
        return Waiting;
      }
      var outcome := script[0].outcome;
      script := script[1..];
      if polling && outcome == Again {
        return Success;
      }
      if polling && outcome == Broken {
        return SystemError;
      }
      code := ConnectCheck(outcome);
    }

    /**
      socketFinalizeConnect: Ready means that magic and type went out, once, in this order. The
      asynchronous case is also described for a socket that an abort has made lose count.
     */
    method FinalizeConnect() returns (code: Code)
      requires state == Connected && (Valid() || Resumable())
      modifies this`state, this`finalizeCounter, this`script, this`sent
      ensures asyncFlag ==> AfterSending(old(finalizeCounter), old(sent), old(script), code)
      ensures old(Valid()) && asyncFlag ==> (Valid() <==> !SendSlips(old(finalizeCounter), old(script), hasAbort))
      ensures old(Valid()) && asyncFlag && code != InternalError ==> Valid()
      ensures old(Valid()) && !asyncFlag ==> AfterSendingAll(old(script), code)
      ensures old(Valid()) && !asyncFlag ==> (Valid() <==> !Stranded(SendAll(old(script), hasAbort)))
      ensures old(Valid()) && state == Ready ==> sent == magic + kind
      ensures old(Valid()) ==> exists n :: 0 <= n <= MAGIC_SIZE + TYPE_SIZE && sent == (magic + kind)[..n]
      ensures var done := code == Success && (!asyncFlag || finalizeCounter == MAGIC_SIZE + TYPE_SIZE);
        state == if done then Ready else Connected
      ensures old(sent) <= sent
      ensures |script| <= |old(script)| && (code != Waiting ==> |script| < |old(script)|)
    {
      if asyncFlag {
        code := FinalizeConnectAsync();
      } else {
        code := FinalizeConnectSync();
      }
    }

    method FinalizeConnectAsync() returns (code: Code)
      requires state == Connected && Resumable()
      modifies this`state, this`finalizeCounter, this`script, this`sent
      ensures AfterSending(old(finalizeCounter), old(sent), old(script), code)
      ensures old(Valid()) ==> (Valid() <==> !SendSlips(old(finalizeCounter), old(script), hasAbort))
      ensures old(Valid()) && code != InternalError ==> Valid()
      ensures old(Valid()) && state == Ready ==> sent == magic + kind
      ensures old(Valid()) ==> exists n :: 0 <= n <= MAGIC_SIZE + TYPE_SIZE && sent == (magic + kind)[..n]
      ensures |script| <= |old(script)| && (code != Waiting ==> |script| < |old(script)|)
    {
      code := SendRest();
      if code == Success && finalizeCounter == MAGIC_SIZE + TYPE_SIZE {
        state := Ready;
      }
      if old(Valid()) { SendingKeeps(old(finalizeCounter), old(script), code); }
    }

    method FinalizeConnectSync() returns (code: Code)
      requires state == Connected && Valid() && !asyncFlag
      modifies this`state, this`script, this`sent
      ensures AfterSendingAll(old(script), code)
      ensures Valid() <==> !Stranded(SendAll(old(script), hasAbort))
      ensures |script| <= |old(script)| && (code != Waiting ==> |script| < |old(script)|)
    {
      code := SendBoth();
      if code == Success {
        state := Ready;
      }
    }

    /** What a synchronous send call has done. */
    ghost predicate AfterSendingAll(before: seq<Step>, code: Code)
      reads this
    {
      var w := SendAll(before, hasAbort);
      && code == w.code && script == w.script && sent == (magic + kind)[..w.moved]
      && state == if code == Success then Ready else Connected
    }

    /** Of a socket that had sent as much as its counter says. */
    lemma SendingKeeps(c: nat, before: seq<Step>, code: Code)
      requires asyncFlag && received == [] && |finalizeBuffer| == MAGIC_SIZE && c < MAGIC_SIZE + TYPE_SIZE
      requires AfterSending(c, (magic + kind)[..c], before, code)
      ensures Valid() <==> !SendSlips(c, before, hasAbort)
      ensures code != InternalError ==> Valid()
      ensures state == Ready ==> sent == magic + kind
      ensures exists n :: 0 <= n <= MAGIC_SIZE + TYPE_SIZE && sent == (magic + kind)[..n]
    {
      var r := SendPhases(c, before, hasAbort);
      SendSlipsExactly(c, before, hasAbort);
      SentSoFar(c, r.end);
      assert |(magic + kind)[..r.end]| == r.end && |(magic + kind)[..r.counter]| == r.counter;
    }

    lemma SentSoFar(counter: nat, end: nat)
      requires counter <= end <= MAGIC_SIZE + TYPE_SIZE
      ensures (magic + kind)[..counter] + (magic + kind)[counter..end] == (magic + kind)[..end]
      ensures (magic + kind)[..MAGIC_SIZE + TYPE_SIZE] == magic + kind
    {}

    /** The synchronous case. */
    method SendBoth() returns (code: Code)
      requires !asyncFlag && sent == []
      modifies this`script, this`sent
      ensures SendAll(old(script), hasAbort) == Waited(code, |sent|, script)
      ensures |sent| <= MAGIC_SIZE + TYPE_SIZE && sent == (magic + kind)[..|sent|]
      ensures |script| <= |old(script)| && (code != Waiting ==> |script| < |old(script)|)
    {
      ghost var n;
      code, n := WaitSend(magic);
      Ended(old(script), hasAbort, MAGIC_SIZE, MAGIC_SIZE, code, n, script);
      assert magic[..n] == (magic + kind)[..n];
      if code != Success {
        return;
      }
      ghost var between := script;
      code, n := WaitSend(kind);
      Ended(between, hasAbort, TYPE_SIZE, TYPE_SIZE, code, n, script);
      assert magic + kind[..n] == (magic + kind)[..MAGIC_SIZE + n];
    }

    /** What an asynchronous send call from counter `c` and script `before` has done. */
    ghost predicate AfterSending(c: nat, sent0: seq<byte>, before: seq<Step>, code: Code)
      reads this
    {
      c < MAGIC_SIZE + TYPE_SIZE &&
      var r := SendPhases(c, before, hasAbort);
      && code == r.code && finalizeCounter == r.counter && script == r.script
      && sent == sent0 + (magic + kind)[c..r.end]
      && state == if code == Success && r.counter == MAGIC_SIZE + TYPE_SIZE then Ready else Connected
    }

    /** The asynchronous case: at most one send for the magic and one for the type. */
    method SendRest() returns (code: Code)
      requires asyncFlag && finalizeCounter < MAGIC_SIZE + TYPE_SIZE
      modifies this`finalizeCounter, this`script, this`sent
      ensures var r := SendPhases(old(finalizeCounter), old(script), hasAbort);
        && code == r.code && finalizeCounter == r.counter && script == r.script
        && sent == old(sent) + (magic + kind)[old(finalizeCounter)..r.end]
    {
      if finalizeCounter < MAGIC_SIZE {
        code := SendField(magic, 0);
        if code != Success || finalizeCounter < MAGIC_SIZE {
          return;
        }
      }
      ghost var between := script;
      code := SendField(kind, MAGIC_SIZE);
      if old(finalizeCounter) < MAGIC_SIZE {
        ghost var r := SendPhase(MAGIC_SIZE, MAGIC_SIZE + TYPE_SIZE, between, hasAbort);
        SlicesJoin(magic + kind, old(finalizeCounter), MAGIC_SIZE, r.end);
      }
    }

    /** One send for the rest of a field, which starts at byte `base` of the handshake. */
    method SendField(field: seq<byte>, base: nat) returns (code: Code)
      requires asyncFlag && base <= finalizeCounter < base + |field| <= MAGIC_SIZE + TYPE_SIZE
      requires (magic + kind)[base..base + |field|] == field
      modifies this`finalizeCounter, this`script, this`sent
      ensures var r := SendPhase(old(finalizeCounter), base + |field|, old(script), hasAbort);
        && code == r.code && finalizeCounter == r.counter && script == r.script
        && sent == old(sent) + (magic + kind)[old(finalizeCounter)..r.end]
    {
      var closed, n;
      var from := finalizeCounter - base;
      code, closed, n := ProgressSend(field, from);
      SliceOfSlice(magic + kind, base, |field|, from, n);
      if code != Success {
        return;
      }
      if closed {
        return RemoteError;
      }
      finalizeCounter := n + base;
    }

    // --------------------------------------------------------------------- the entry points

    /** The next system call of the script succeeds. */
    predicate Succeeds(before: seq<Step>) { before != [] && before[0].outcome.Moved? }

    /** One call of socketProgressState by a socket that accepts: the next peer, if there is one, is served at once. */
    function Serve(before: seq<Step>, peers0: seq<seq<byte>>, retries: int): (s: Served)
      ensures s.state in {Accepting, Accepted, Ready, BadHandshake}
      ensures |s.script| <= |before| && (s.code == Success ==> |s.script| < |before|)
      ensures s.state == Accepted && s.code == Success ==> asyncFlag
    {
      var c := TryAcceptCode(before, retries);
      var now := if Begin(before, Transient) then retries + 1 else retries;
      if c != Success || !Succeeds(before) || peers0 == [] then Served(c, Accepting, now, Rest(before), peers0)
      else
        var g := Receive(0, peers0[0], Rest(before));
        Served(g.code, g.state, now, g.script, peers0[1..])
    }

    predicate Serves(before: seq<Step>, peers0: seq<seq<byte>>, retries: int, s: Served) {
      s == Serve(before, peers0, retries)
    }

    /** The accepting half of socketProgressState. */
    method ProgressAccept() returns (code: Code)
      requires state in {Accepting, Accepted} && (Valid() || Resumable())
      modifies this`state, this`finalizeCounter, this`finalizeBuffer, this`errorRetries
      modifies this`script, this`peers, this`stream, this`received
      ensures old(Valid()) && (code == Success || (asyncFlag && code != InternalError)) ==> Valid()
      ensures state in {Accepting, Accepted, Ready, BadHandshake} && |finalizeBuffer| == MAGIC_SIZE
      ensures old(state) == Accepted && asyncFlag && old(finalizeCounter) < MAGIC_SIZE ==>
        AfterMagic(old(finalizeCounter), old(finalizeBuffer), old(received), old(stream), old(script), code)
      ensures old(state) == Accepting && asyncFlag && Succeeds(old(script)) && old(peers) != [] ==>
        AfterMagic(0, old(finalizeBuffer), [], old(peers)[0], Rest(old(script)), code)
      ensures old(state) == Accepted ==>
        state != Accepting && received + stream == old(received) + old(stream) && peers == old(peers)
      ensures old(state) == Accepting ==>
        if state == Accepting then peers == old(peers) else old(peers) == [received + stream] + peers
      ensures old(state) in {Accepting, Accepted} && !asyncFlag && code == Success ==> state != Accepted
      ensures old(Valid()) && old(state) == Accepting ==>
        forall s :: Serves(old(script), old(peers), old(errorRetries), s) ==>
          s == Served(code, state, errorRetries, script, peers)
      ensures old(Valid()) && old(state) == Accepted ==>
        forall g :: Receives(old(received), old(stream), old(script), g) ==>
          AfterReceive(old(received) + old(stream), g, code)
      ensures old(Valid()) && state == BadHandshake && old(state) in {Accepting, Accepted} ==>
        code == Success && TurnedAway()
      ensures |script| <= |old(script)| && (code == Success ==> |script| < |old(script)|)
    {
      code := Success;
      if state == Accepting {
        code := TryAccept();
        if code != Success { return; }
        assert state == Accepted ==> received + stream == stream;
      }
      if state == Accepted {
        code := FinalizeAccept();
      }
    }

    /** One call of socketProgressState by a socket that connects: a new attempt is polled at once. */
    function DialTurn(before: seq<Step>, polling: bool, retries: int): (d: Dialled)
      ensures d.state == Connected ==> d.code == Success
      ensures d.state in {Connecting, ConnectPolling, Connected, Error} && (d.state == Error ==> d.code != Success)
      ensures |d.script| <= |before| && (d.code == Success ==> |d.script| < |before|)
    {
      var d := Dial(before, polling, retries);
      if !polling && d.code == Success && d.state == ConnectPolling then Dial(d.script, true, d.retries) else d
    }

    predicate Dials(before: seq<Step>, polling: bool, retries: int, d: Dialled) {
      d == DialTurn(before, polling, retries)
    }

    /** The socket is where `d` says; once connected, the handshake on the rest of the script ended in `code`. */
    ghost predicate AfterDialling(d: Dialled, code: Code)
      reads this
    {
      if d.state != Connected then
        code == d.code && state == d.state && errorRetries == d.retries && script == d.script && sent == []
      else if asyncFlag then AfterSending(0, [], d.script, code)
      else AfterSendingAll(d.script, code)
    }

    /** The connecting half. */
    method ProgressConnect() returns (code: Code)
      requires state in {Connecting, ConnectPolling, Connected} && (Valid() || Resumable())
      modifies this`state, this`finalizeCounter, this`errorRetries, this`script, this`sent
      ensures old(Valid()) && (code == Success || (asyncFlag && code != InternalError)) ==> Valid()
      ensures state in {Connecting, ConnectPolling, Connected, Ready, Error} && old(sent) <= sent
      ensures state == Error ==> code != Success
      ensures old(state) == Connected && asyncFlag ==> AfterSending(old(finalizeCounter), old(sent), old(script), code)
      ensures old(Valid()) && old(state) in {Connecting, ConnectPolling} ==>
        forall d :: Dials(old(script), old(state) == ConnectPolling, old(errorRetries), d) ==> AfterDialling(d, code)
      ensures |script| <= |old(script)| && (code == Success ==> |script| < |old(script)|)
    {
      code := Success;
      if state == Connecting {
        code := StartOrPoll(false);
        if code != Success { return; }
      }
      if state == ConnectPolling {
        code := StartOrPoll(true);
        if code != Success { return; }
      }
      if state == Connected {
        code := FinalizeConnect();
      }
    }

    /** socketProgressState; an accepting socket never turns into a connecting one on the way. */
    method ProgressState() returns (code: Code)
      requires Valid() || Resumable()
      modifies this`state, this`finalizeCounter, this`finalizeBuffer, this`errorRetries
      modifies this`script, this`peers, this`stream, this`received, this`sent
      ensures old(Valid()) && (code == Success || (asyncFlag && code != InternalError)) ==> Valid()
      ensures old(state) in {Accepting, Accepted} ==>
        state in {Accepting, Accepted, Ready, BadHandshake} && sent == old(sent)
      ensures old(state) in {Connecting, ConnectPolling, Connected} ==>
        state in {Connecting, ConnectPolling, Connected, Ready, Error} && received == old(received) && old(sent) <= sent
      ensures old(state) !in {Accepting, Accepted, Connecting, ConnectPolling, Connected} ==>
        state == old(state) && code == Success && sent == old(sent) && received == old(received)
      ensures state == Error && old(state) != Error ==> code != Success
      ensures |finalizeBuffer| == MAGIC_SIZE
      ensures asyncFlag && old(state) == Connected ==> AfterSending(old(finalizeCounter), old(sent), old(script), code)
      ensures old(Valid()) && old(state) in {Connecting, ConnectPolling} ==>
        forall d :: Dials(old(script), old(state) == ConnectPolling, old(errorRetries), d) ==> AfterDialling(d, code)
      ensures asyncFlag && old(state) == Accepted && old(finalizeCounter) < MAGIC_SIZE ==>
        AfterMagic(old(finalizeCounter), old(finalizeBuffer), old(received), old(stream), old(script), code)
      ensures asyncFlag && old(state) == Accepting && Succeeds(old(script)) && old(peers) != [] ==>
        AfterMagic(0, old(finalizeBuffer), [], old(peers)[0], Rest(old(script)), code)
      ensures old(state) == Accepted ==>
        state != Accepting && received + stream == old(received) + old(stream) && peers == old(peers)
      ensures old(state) == Accepting ==>
        if state == Accepting then peers == old(peers) else old(peers) == [received + stream] + peers
      ensures old(state) in {Accepting, Accepted} && !asyncFlag && code == Success ==> state != Accepted
      ensures old(Valid()) && old(state) == Accepting ==>
        forall s :: Serves(old(script), old(peers), old(errorRetries), s) ==>
          s == Served(code, state, errorRetries, script, peers)
      ensures old(Valid()) && old(state) == Accepted ==>
        forall g :: Receives(old(received), old(stream), old(script), g) ==>
          AfterReceive(old(received) + old(stream), g, code)
      ensures old(Valid()) && state == BadHandshake && old(state) in {Accepting, Accepted} ==>
        code == Success && TurnedAway()
      ensures |script| <= |old(script)|
      ensures code == Success && old(state) in {Accepting, Accepted, Connecting, ConnectPolling, Connected} ==>
        |script| < |old(script)|
    {
      code := Success;
      if state in {Accepting, Accepted} {
        code := ProgressAccept();
      } else if state in {Connecting, ConnectPolling, Connected} {
        code := ProgressConnect();
      }
    }

    /** Nobody of `peers0` was accepted, or the first one was and is served or turned away. */
    ghost predicate Met(peers0: seq<seq<byte>>)
      reads this
    {
      if peers == peers0 then state == Accepting
      else peers0 == [received + stream] + peers && (state == Accepting ==> TurnedAway())
    }

    /** What a successful call of ncclSocketReady does to either kind of socket. */
    ghost predicate Turn(state0: State, received0: seq<byte>, stream0: seq<byte>, peers0: seq<seq<byte>>,
                         sent0: seq<byte>)
      reads this
    {
      match state0
      case Accepting => sent == sent0 && state in {Accepting, Accepted, Ready} && Met(peers0)
      case Accepted =>
        && sent == sent0 && peers == peers0 && received + stream == received0 + stream0
        && state in {Accepting, Accepted, Ready} && (state == Accepting ==> TurnedAway())
      case Ready =>
        state == state0 && received == received0 && stream == stream0 && peers == peers0 && sent == sent0
      case Connecting | ConnectPolling | Connected =>
        state in {Connecting, ConnectPolling, Connected, Ready} && received == received0 && sent0 <= sent
      case _ => true
    }

    /** A socket whose handshake was bad is about to accept the next peer. */
    function Reset(end: State): State { if end == BadHandshake then Accepting else end }

    /** ncclSocketReady */
    method CheckReady() returns (code: Code, running: bool)
      requires Valid() || Resumable()
      modifies this`state, this`finalizeCounter, this`finalizeBuffer, this`errorRetries
      modifies this`script, this`peers, this`stream, this`received, this`sent
      ensures old(Valid()) && (code == Success || (asyncFlag && code != InternalError)) ==> Valid()
      ensures old(state) in {Error, Closed} ==> code == RemoteError && state == old(state) && script == old(script)
      ensures code == Success ==> (running <==> state == Ready)
      ensures old(state) == Ready ==> code == Success && script == old(script)
      ensures old(Valid()) && old(state) in {Connecting, ConnectPolling} ==>
        forall d :: Dials(old(script), old(state) == ConnectPolling, old(errorRetries), d) ==> AfterDialling(d, code)
      ensures old(Valid()) && old(state) == Accepting ==>
        forall s :: Serves(old(script), old(peers), old(errorRetries), s) ==>
          s.(state := Reset(s.state)) == Served(code, state, errorRetries, script, peers)
      ensures old(Valid()) && old(state) == Accepted ==>
        forall g :: Receives(old(received), old(stream), old(script), g) ==>
          AfterReceive(old(received) + old(stream), g.(state := Reset(g.state)), code)
      ensures old(Valid()) && code == Success ==> Turn(old(state), old(received), old(stream), old(peers), old(sent))
      ensures old(Valid()) && running ==> code == Success && (sent == magic + kind || received == magic + kind)
      ensures asyncFlag && old(state) == Connected ==> AfterSending(old(finalizeCounter), old(sent), old(script), code)
      ensures
        && asyncFlag && old(state) == Accepted
        && Rejects(old(finalizeCounter), old(finalizeBuffer), old(stream), old(script)) ==>
        && code == Success && state == Accepting && !running
        && received + stream == old(received) + old(stream)
        && |received| == |old(received)| + MAGIC_SIZE - old(finalizeCounter)
    {
      running := false;
      if state == Error || state == Closed {
        return RemoteError, false;
      }
      running := state == Ready;
      code := Success;
      if !running {
        code := ProgressState();
        if code != Success {
          return;
        }
        if state == BadHandshake {
          state := Accepting;
        }
        running := state == Ready;
      }
    }

    predicate AbortedAt(after: seq<Step>) { hasAbort && after != [] && after[0].abort }

    /** The abort flag as the next step will find it. */
    predicate Aborted()
      reads this
    {
      hasAbort && script != [] && script[0].abort
    }

    /** The loop of ncclSocketConnect, up to the handshake. */
    function DialAll(before: seq<Step>, polling: bool, retries: int): (d: Dialled)
      ensures d.state == Connected ==> d.code == Success
      ensures d.state in {Connecting, ConnectPolling, Connected, Error}
      decreases |before|
    {
      var d := DialTurn(before, polling, retries);
      if d.code != Success || d.state == Connected || asyncFlag || AbortedAt(d.script) then d
      else DialAll(d.script, d.state == ConnectPolling, d.retries)
    }

    /** An attempt that succeeds ends it. */
    lemma DialSucceeds(before: seq<Step>, polling: bool, retries: int)
      requires Succeeds(before)
      ensures DialAll(before, polling, retries) == Dialled(Success, Connected, retries, Rest(before))
    {}

    /** No step after the first meets the abort flag. */
    predicate Calm(before: seq<Step>) { hasAbort ==> forall i :: 0 < i < |before| ==> !before[i].abort }

    /**
      A synchronous connect makes `k` refused attempts again, if the retry count allows, and goes on as
      if it began there; else it ends in RemoteError.
     */
    lemma {:induction false} DialRetries(before: seq<Step>, k: nat, retries: int)
      requires !asyncFlag && Calm(before) && k <= |before| && forall i :: 0 <= i < k ==> Refuses(before[i].outcome)
      ensures var d := DialAll(before, false, retries);
        if Exhausted(retries, k) then d.code == RemoteError else d == DialAll(before[k..], false, RetriedBy(retries, k))
    {
      if k > 0 {
        assert before[1..][k - 1..] == before[k..];
        DialRetry(before, retries);
        if !LastRetry(retries) {
          var rest, now := before[1..], Retried(retries);
          DialRetries(rest, k - 1, now);
          assert Exhausted(now, k - 1) == Exhausted(retries, k) && RetriedBy(now, k - 1) == RetriedBy(retries, k);
          assert DialAll(rest[k - 1..], false, RetriedBy(now, k - 1))
              == DialAll(before[k..], false, RetriedBy(retries, k));
        }
      } else {
        assert before[0..] == before;
      }
    }

    /** One of the next `k` refusals is beyond the retry limit. */
    predicate Exhausted(retries: int, k: nat) { !customRetry && retries <= retryCnt < retries + k }

    function RetriedBy(retries: int, k: nat): int { if customRetry then retries else retries + k }

    lemma DialRetry(before: seq<Step>, retries: int)
      requires !asyncFlag && Calm(before) && before != [] && Refuses(before[0].outcome)
      ensures var d := DialAll(before, false, retries);
        if LastRetry(retries) then d.code == RemoteError else d == DialAll(before[1..], false, Retried(retries))
    {
      assert !AbortedAt(before[1..]);
      assert Dial(before, false, retries) == Refused(before[1..], retries);
    }

    /** An attempt under way is polled through any number of timeouts, which cost no retry. */
    lemma {:induction false} DialPolls(before: seq<Step>, k: nat, retries: int)
      requires !asyncFlag && Calm(before) && k <= |before| && forall i :: 0 <= i < k ==> before[i].outcome == Again
      ensures DialAll(before, true, retries) == DialAll(before[k..], true, retries)
    {
      if k > 0 {
        assert before[1..][k - 1..] == before[k..];
        DialPolls(before[1..], k - 1, retries);
      } else {
        assert before[0..] == before;
      }
    }

    /** What ncclSocketConnect or ncclSocketAccept returns when its loop ended with `code`, leaving `after`. */
    function EndCode(code: Code, after: seq<Step>): Code {
      if code == Success && AbortedAt(after) then InternalError else code
    }

    /**
      ncclSocketConnect. What it returns, and the bytes it has sent, are decided by the script alone:
      by the attempts to connect and then by the handshake.
     */
    method Connect() returns (code: Code)
      requires Valid()
      modifies this`state, this`finalizeCounter, this`finalizeBuffer, this`errorRetries
      modifies this`script, this`peers, this`stream, this`received, this`sent
      ensures old(state) != Initialized ==>
        state == old(state) && code == (if state == Error then RemoteError else InternalError)
      ensures code == Success ==> Valid() && state in {Connecting, ConnectPolling, Connected, Ready}
      ensures code == Success && old(state) == Initialized ==> received == []
      ensures code == Success && !asyncFlag ==> state == Ready
      ensures code == Success && state == Ready ==> sent == magic + kind
      ensures old(state) == Initialized ==>
        var d := DialAll(old(script), false, old(errorRetries));
        var end := if d.state != Connected then d.code
                   else if asyncFlag then SendPhases(0, d.script, hasAbort).code
                   else SendAll(d.script, hasAbort).code;
        code == EndCode(end, script) && AfterDialling(d, end) && |finalizeBuffer| == MAGIC_SIZE
    {
      if state != Initialized {
        return if state == Error then RemoteError else InternalError;
      }
      state, finalizeCounter := Connecting, 0;
      code := ConnectLoop();
      if code == Success && Aborted() {
        return InternalError;
      }
    }

    /** The loop of ncclSocketConnect. */
    method ConnectLoop() returns (code: Code)
      requires Valid() && state == Connecting
      modifies this`state, this`finalizeCounter, this`finalizeBuffer, this`errorRetries
      modifies this`script, this`peers, this`stream, this`received, this`sent
      ensures code == Success ==>
        && Valid() && received == []
        && (state == Ready || ((asyncFlag || Aborted()) && state in {Connecting, ConnectPolling, Connected}))
      ensures AfterDialling(DialAll(old(script), false, old(errorRetries)), code) && |finalizeBuffer| == MAGIC_SIZE
    {
      ghost var all := DialAll(script, false, errorRetries);
      while true
        invariant Valid() && state in {Connecting, ConnectPolling} && received == []
        invariant DialAll(script, state == ConnectPolling, errorRetries) == all
        decreases |script|
      {
        ghost var d := DialTurn(script, state == ConnectPolling, errorRetries);
        assert Dials(script, state == ConnectPolling, errorRetries, d);
        code := ProgressState();
        assert AfterDialling(d, code);
        if code != Success {
          return;
        }
        if asyncFlag || Aborted() || state !in {Connecting, ConnectPolling, Connected} {
          break;
        }
      }
    }

    /** The loop of ncclSocketAccept for a new socket. */
    function ServeAll(before: seq<Step>, peers0: seq<seq<byte>>, retries: int, retry: bool): (s: Served)
      ensures s.code == Success ==> s.state in {Accepting, Accepted, Ready}
      decreases |before|
    {
      var s := Serve(before, peers0, retries);
      if Ends(s, retry) then s.(state := Reset(s.state)) else ServeAll(s.script, s.peers, s.retries, retry)
    }

    /** The turn that ended in `s` is the last. */
    predicate Ends(s: Served, retry: bool) {
      || s.code != Success || (s.state == BadHandshake && !retry) || asyncFlag || AbortedAt(s.script)
      || s.state == Ready
    }

    /** The first peer, if right and whole, makes it Ready, whoever else is waiting. */
    lemma ServesRightPeer(before: seq<Step>, peers0: seq<seq<byte>>, retries: int, retry: bool)
      requires Succeeds(before) && peers0 != [] && Receive(0, peers0[0], Rest(before)).state == Ready
      ensures ServeAll(before, peers0, retries, retry)
        == Served(Success, Ready, retries, Receive(0, peers0[0], Rest(before)).script, peers0[1..])
    {}

    /** With retry, a wrong peer costs only what was read of it. */
    lemma ServesNextPeer(before: seq<Step>, peers0: seq<seq<byte>>, retries: int)
      requires !asyncFlag && Succeeds(before) && peers0 != []
      requires Receive(0, peers0[0], Rest(before)).state == BadHandshake
      requires !AbortedAt(Receive(0, peers0[0], Rest(before)).script)
      ensures ServeAll(before, peers0, retries, true)
        == ServeAll(Receive(0, peers0[0], Rest(before)).script, peers0[1..], retries, true)
    {}

    /** One turn of the loop of ncclSocketAccept; `done` if it is the last. */
    method AcceptTurn(retry: bool) returns (code: Code, done: bool)
      requires Valid() && sent == [] && state !in {Connecting, ConnectPolling, Connected}
      modifies this`state, this`finalizeCounter, this`finalizeBuffer, this`errorRetries
      modifies this`script, this`peers, this`stream, this`received, this`sent
      ensures code == Success ==>
        Valid() && sent == [] && state !in {Connecting, ConnectPolling, Connected, BadHandshake}
      ensures old(state) in {StateNone, Initialized, Terminating, Closed} ==>
        state == old(state) && code == Success && done
      ensures code == Success ==>
        if done then asyncFlag || Aborted() || state !in {Accepting, Accepted} || (!retry && state == Accepting)
        else !asyncFlag && (|script| < |old(script)| || (old(state) == BadHandshake && |script| <= |old(script)|))
      ensures old(state) == Accepting && code == Success ==>
        && (if peers == old(peers) then state == Accepting && (done ==> asyncFlag || Aborted())
            else old(peers) == [received + stream] + peers && (state == Accepting && done && !retry ==> TurnedAway()))
        && (!done ==> state == Accepting && (!retry ==> peers == old(peers)))
        && (!asyncFlag ==> state != Accepted)
      ensures old(state) == Accepting && asyncFlag && Succeeds(old(script)) && old(peers) != [] ==>
        AfterMagic(0, old(finalizeBuffer), [], old(peers)[0], Rest(old(script)), code)
          || Try(Rest(old(script)), hasAbort, Min(MAGIC_SIZE, |old(peers)[0]|)).code == Success
      ensures old(state) == Accepting ==>
        forall s :: Serves(old(script), old(peers), old(errorRetries), s) ==>
          && s.(state := Reset(s.state)) == Served(code, state, errorRetries, script, peers)
          && (Ends(s, retry) <==> code != Success || done)
    {
      code := ProgressState();
      if code != Success {
        return code, true;
      }
      var bad := state == BadHandshake;
      if bad {
        state := Accepting;
      }
      done := (bad && !retry) || asyncFlag || Aborted() || state !in {Accepting, Accepted};
    }

    /** The loop at `before` goes on as it would at `now`, or ends there. */
    ghost predicate LeadsTo(before: seq<Step>, peers0: seq<seq<byte>>, retries: int, retry: bool, now: Served,
                            ends: bool) {
      forall s :: ServesAll(before, peers0, retries, retry, s) ==>
        if ends then s == now else ServesAll(now.script, now.peers, now.retries, retry, s)
    }

    lemma ServeTurn(before: seq<Step>, peers0: seq<seq<byte>>, retries: int, retry: bool, s: Served)
      requires s == Serve(before, peers0, retries)
      ensures Serves(before, peers0, retries, s)
      ensures LeadsTo(before, peers0, retries, retry, s.(state := Reset(s.state)), Ends(s, retry))
    {}

    lemma LeadsOn(before: seq<Step>, peers0: seq<seq<byte>>, retries: int, retry: bool, now: Served, next: Served,
                  ends: bool)
      requires LeadsTo(before, peers0, retries, retry, now, false)
      requires LeadsTo(now.script, now.peers, now.retries, retry, next, ends)
      ensures LeadsTo(before, peers0, retries, retry, next, ends)
    {}

    predicate ServesAll(before: seq<Step>, peers0: seq<seq<byte>>, retries: int, retry: bool, s: Served) {
      s == ServeAll(before, peers0, retries, retry)
    }

    /** The loop of ncclSocketAccept. */
    method AcceptLoop(retry: bool) returns (code: Code)
      requires Valid() && sent == [] && state !in {Connecting, ConnectPolling, Connected}
      modifies this`state, this`finalizeCounter, this`finalizeBuffer, this`errorRetries
      modifies this`script, this`peers, this`stream, this`received, this`sent
      ensures code == Success ==>
        Valid() && sent == [] && state !in {Connecting, ConnectPolling, Connected, BadHandshake}
      ensures old(state) in {StateNone, Initialized, Terminating, Closed} ==> state == old(state) && code == Success
      ensures code == Success && retry && !asyncFlag ==> Aborted() || state !in {Accepting, Accepted}
      ensures old(state) == Accepting && code == Success && state == Ready ==> received + stream in old(peers)
      ensures old(state) == Accepting && code == Success && !retry ==> Met(old(peers))
      ensures old(state) == Accepting && code == Success && !asyncFlag ==> state != Accepted
      ensures old(state) == Accepting && code == Success && !retry && !asyncFlag ==> Aborted() || peers != old(peers)
      ensures old(state) == Accepting && asyncFlag && Succeeds(old(script)) && old(peers) != [] ==>
        var t := Try(Rest(old(script)), hasAbort, Min(MAGIC_SIZE, |old(peers)[0]|));
        t.code != Success ==>
          && code == t.code
          && AfterMagic(0, old(finalizeBuffer), [], old(peers)[0], Rest(old(script)), code)
      ensures old(state) == Accepting ==>
        LeadsTo(old(script), old(peers), old(errorRetries), retry,
                Served(code, state, errorRetries, script, peers), true)
    {
      var done := false;
      code := Success;
      while !done
        invariant Valid() && sent == [] && state !in {Connecting, ConnectPolling, Connected}
        invariant code == Success && (done ==> state != BadHandshake)
        invariant done ==> asyncFlag || Aborted() || state !in {Accepting, Accepted} || (!retry && state == Accepting)
        invariant old(state) in {StateNone, Initialized, Terminating, Closed} ==> state == old(state)
        invariant !done && asyncFlag ==>
          && state == old(state) && script == old(script) && peers == old(peers)
          && finalizeBuffer == old(finalizeBuffer) && errorRetries == old(errorRetries)
        invariant done && old(state) == Accepting && asyncFlag && Succeeds(old(script)) && old(peers) != [] ==>
          AfterMagic(0, old(finalizeBuffer), [], old(peers)[0], Rest(old(script)), code)
            || Try(Rest(old(script)), hasAbort, Min(MAGIC_SIZE, |old(peers)[0]|)).code == Success
        invariant old(state) == Accepting ==>
          if done then
            && (state == Ready ==> received + stream in old(peers)) && (!asyncFlag ==> state != Accepted)
            && (!retry ==> Met(old(peers)) && (!asyncFlag ==> Aborted() || peers != old(peers)))
          else
            state == Accepting && (!retry ==> peers == old(peers)) && forall p :: p in peers ==> p in old(peers)
        invariant old(state) == Accepting ==>
          LeadsTo(old(script), old(peers), old(errorRetries), retry,
                  Served(code, state, errorRetries, script, peers), done)
        decreases !done, |script|, state == BadHandshake
      {
        ghost var was := Served(code, state, errorRetries, script, peers);
        ghost var s := Serve(script, peers, errorRetries);
        ServeTurn(script, peers, errorRetries, retry, s);
        code, done := AcceptTurn(retry);
        if old(state) == Accepting {
          ghost var now := Served(code, state, errorRetries, script, peers);
          assert now == s.(state := Reset(s.state));
          LeadsOn(old(script), old(peers), old(errorRetries), retry, was, now, code != Success || done);
        }
        if code != Success {
          return;
        }
      }
    }

    /** ncclSocketAccept; `isNew` if the socket has no listening descriptor yet. */
    method Accept(listenState: State, isNew: bool, retry: bool) returns (code: Code)
      requires Valid() && sent == [] && (!isNew ==> state !in {Connecting, ConnectPolling, Connected})
      modifies this`state, this`finalizeCounter, this`finalizeBuffer, this`errorRetries
      modifies this`script, this`peers, this`stream, this`received, this`sent
      ensures listenState != Ready ==>
        state == old(state) && code == (if listenState == Error then SystemError else InternalError)
      ensures code == Success ==> Valid() && sent == [] && state in {Accepting, Accepted, Ready}
      ensures listenState == Ready && !isNew && old(state) in {StateNone, Initialized, Terminating, Closed} ==>
        code == InternalError
      ensures code == Success && !asyncFlag && retry ==> state == Ready
      ensures code == Success && state == Ready ==> received == magic + kind
      ensures code == Success && isNew && state == Ready ==> received + stream in old(peers)
      ensures code == Success && isNew && !retry ==> Met(old(peers))
      ensures code == Success && isNew && !asyncFlag ==> state != Accepted && (!retry ==> peers != old(peers))
      ensures listenState == Ready && isNew && asyncFlag && Succeeds(old(script)) && old(peers) != [] ==>
        var t := Try(Rest(old(script)), hasAbort, Min(MAGIC_SIZE, |old(peers)[0]|));
        t.code != Success ==>
          && code == t.code
          && AfterMagic(0, old(finalizeBuffer), [], old(peers)[0], Rest(old(script)), code)
      ensures listenState == Ready && isNew ==>
        var s := ServeAll(old(script), old(peers), old(errorRetries), retry);
        && code == EndCode(s.code, s.script)
        && state == s.state && errorRetries == s.retries && script == s.script && peers == s.peers
    {
      if listenState != Ready {
        return if listenState == Error then SystemError else InternalError;
      }
      if isNew {
        state, finalizeCounter := Accepting, 0;
      }
      ghost var s := ServeAll(script, peers, errorRetries, retry);
      assert ServesAll(script, peers, errorRetries, retry, s);
      code := AcceptLoop(retry);
      if code != Success {
        return;
      }
      if Aborted() {
        return InternalError;
      }
      match state {
        case Accepting | Accepted | Ready => return Success;
        case Error => return SystemError;
        case _ => return InternalError;
      }
    }
  }

  // --------------------------------------------------------------------- both ends

  /**
    For every prefix `p` of what a connector sends, the acceptor goes the way the two
    configurations decide: it is Ready exactly after all of it if magic and type agree, and it turns
    the peer away at the end of the first field that differs.
   */
  lemma PeersAgree(m: Magic, k: Type, magic: Magic, kind: Type, n: nat)
    requires n <= MAGIC_SIZE + TYPE_SIZE
    ensures var v := Verdict((m + k)[..n], magic, kind);
      && (v == Ready <==> n == MAGIC_SIZE + TYPE_SIZE && m == magic && k == kind)
      && (v == BadHandshake <==> if m != magic then n >= MAGIC_SIZE else k != kind && n == MAGIC_SIZE + TYPE_SIZE)
  {
    var p := (m + k)[..n];
    if n >= MAGIC_SIZE {
      assert p[..MAGIC_SIZE] == m;
    }
    if n == MAGIC_SIZE + TYPE_SIZE {
      assert p[MAGIC_SIZE..] == k && (magic + kind)[MAGIC_SIZE..] == kind && (magic + kind)[..MAGIC_SIZE] == magic;
    }
  }

  /** A verdict once reached does not depend on how the bytes before it were cut: Accepted means too few of them. */
  lemma VerdictIsFinal(received: seq<byte>, magic: Magic, kind: Type, n: nat)
    requires n <= |received| <= MAGIC_SIZE + TYPE_SIZE && Verdict(received[..n], magic, kind) == BadHandshake
    ensures Verdict(received, magic, kind) == BadHandshake
  {
    var p := received[..n];
    assert p[..MAGIC_SIZE] == received[..MAGIC_SIZE];
    if n == |received| { assert p == received; }
    if received[..MAGIC_SIZE] == magic && n < |received| { assert false; }
  }

  /** A socket that connects has given its peer a first part of its magic and type. */
  lemma SentIsPrefix(c: Socket)
    requires c.Valid() && c.received == [] && c.state in {Connecting, ConnectPolling, Connected, Ready}
    ensures c.sent <= c.magic + c.kind && (c.sent == c.magic + c.kind ==> c.state == Ready)
  {
    assert |c.magic + c.kind| == MAGIC_SIZE + TYPE_SIZE;
  }

  /** While it is being served, the bytes decide nothing yet; a Ready acceptor got its own magic and type. */
  lemma ServedIsVerdict(a: Socket)
    requires a.Valid() && a.sent == [] && a.state in {Accepted, Ready}
    ensures Verdict(a.received, a.magic, a.kind) == a.state
  {
    assert (a.magic + a.kind)[..MAGIC_SIZE] == a.magic;
  }

  ghost predicate Connects(c: Socket)
    reads c
  {
    c.Valid() && c.received == [] && c.state in {Connecting, ConnectPolling, Connected, Ready}
  }

  /** What `a` took from its one peer and what is under way to it are the bytes `all`. */
  ghost predicate Accepts(a: Socket, all: seq<byte>)
    reads a
  {
    && a.Valid() && a.sent == [] && a.state in {Accepting, Accepted, Ready}
    && (if a.peers == [] then a.received + a.stream == all && (a.state == Accepting ==> a.TurnedAway())
        else a.peers == [all] && a.state == Accepting)
  }

  /** The two ends of one connection. */
  ghost predicate Joined(c: Socket, a: Socket)
    reads c, a
  {
    Connects(c) && Accepts(a, c.sent)
  }

  /** More bytes come under way: to the connection, or to the one that waits to be accepted. */
  method Deliver(a: Socket, ghost all: seq<byte>, bytes: seq<byte>)
    requires Accepts(a, all)
    modifies a`stream, a`peers
    ensures Accepts(a, all + bytes) && (a.peers == [] <==> old(a.peers) == [])
  {
    if a.peers == [] {
      a.stream := a.stream + bytes;
      assert a.received + a.stream == all + bytes;
    } else {
      a.peers := [a.peers[0] + bytes];
    }
  }

  /** The connector calls ncclSocketReady, and what it sends is under way. */
  method ConnectorTurn(c: Socket, a: Socket) returns (code: Code, running: bool)
    requires c != a && Joined(c, a)
    modifies c, a`stream, a`peers
    ensures code == Success ==> Joined(c, a) && (a.peers == [] <==> old(a.peers) == [])
    ensures old(c.state) == Ready ==> code == Success && c.state == Ready
  {
    var n := |c.sent|;
    code, running := c.CheckReady();
    if code == Success {
      assert Connects(c) && c.sent == old(c.sent) + c.sent[n..];
      Deliver(a, old(c.sent), c.sent[n..]);
    }
  }

  /** The acceptor calls ncclSocketReady. */
  method AcceptorTurn(c: Socket, a: Socket) returns (code: Code, running: bool)
    requires c != a && Joined(c, a) && (a.peers == [] ==> a.state != Accepting)
    modifies a
    ensures code == Success ==> Joined(c, a) && (old(a.peers) == [] ==> a.peers == [])
    ensures old(a.state) == Ready ==> code == Success && a.state == Ready
  {
    code, running := a.CheckReady();
    if code == Success && a.peers != old(a.peers) { OnlyOne(c.sent, a.received + a.stream, a.peers); }
  }

  lemma OnlyOne(x: seq<byte>, y: seq<byte>, rest: seq<seq<byte>>)
    requires [x] == [y] + rest
    ensures x == y && rest == []
  {
    assert x == [x][0] == ([y] + rest)[0];
  }

  /**
    Where the acceptor stands, in terms of the two configurations and of how many bytes it took: the
    peer's first ones. It is Ready exactly after all of them from a peer with its own magic and type;
    it turns another peer away at the end of the first field that differs, and a peer with its own
    only if that was lost before the magic was whole.
   */
  ghost predicate Decided(c: Socket, a: Socket)
    reads c, a
  {
    var n := |a.received|;
    var same := c.magic == a.magic && c.kind == a.kind;
    && n <= MAGIC_SIZE + TYPE_SIZE && a.received == (c.magic + c.kind)[..n]
    && (a.state == Ready <==> n == MAGIC_SIZE + TYPE_SIZE && same)
    && (a.state == Accepted ==> n < if c.magic == a.magic then MAGIC_SIZE + TYPE_SIZE else MAGIC_SIZE)
    && (a.state == Accepting && same ==> n < MAGIC_SIZE || (a.hasAbort && n == MAGIC_SIZE))
    && (a.state == Ready ==> c.state == Ready)
  }

  lemma JoinedIsDecided(c: Socket, a: Socket)
    requires Joined(c, a) && a.peers == []
    ensures Decided(c, a)
  {
    SentIsPrefix(c);
    var n := |a.received|;
    assert a.received == (c.magic + c.kind)[..n];
    PeersAgree(c.magic, c.kind, a.magic, a.kind, n);
    if a.state != Accepting { ServedIsVerdict(a); }
    if n == MAGIC_SIZE + TYPE_SIZE { assert c.sent == c.magic + c.kind; }
  }

  /** The one call of ncclSocketConnect that this socket's script describes connects and sends the whole handshake. */
  ghost predicate Reaches(c: Socket)
    reads c
  {
    var d := c.DialAll(c.script, false, c.errorRetries);
    && d.state == Connected
    && if c.asyncFlag then
         var r := SendPhases(0, d.script, c.hasAbort);
         r.code == Success && r.counter == MAGIC_SIZE + TYPE_SIZE && !c.AbortedAt(r.script)
       else
         var w := SendAll(d.script, c.hasAbort);
         w.code == Success && !c.AbortedAt(w.script)
  }

  /** The one call of ncclSocketAccept that this socket's script describes finds a peer that sends `all` right. */
  ghost predicate Welcomes(a: Socket, all: seq<byte>)
    reads a
  {
    var s := a.ServeAll(a.script, [all], a.errorRetries, false);
    s.code == Success && s.state == Ready && !a.AbortedAt(s.script)
  }

  /** The connector calls ncclSocketConnect, then the acceptor ncclSocketAccept without retry. */
  method Meet(c: Socket, a: Socket) returns (code: Code)
    requires c != a && c.Valid() && c.state == Initialized && a.Valid() && a.state == Initialized
    modifies c, a
    ensures code == Success ==> Joined(c, a)
    ensures code == Success && !a.asyncFlag ==> a.peers == [] && a.state in {Ready, Accepting}
    ensures code == Success && !c.asyncFlag ==> c.state == Ready
    ensures code == Success && c.state == Ready && a.state == Ready
      <==> old(Reaches(c)) && old(Welcomes(a, c.magic + c.kind))
  {
    code := c.Connect();
    assert c.state == Ready ==> c.sent == c.magic + c.kind;
    if code != Success { return; }
    a.peers := [c.sent];
    code := a.Accept(Ready, true, false);
    if code == Success && a.peers != [c.sent] { OnlyOne(c.sent, a.received + a.stream, a.peers); }
  }

  /**
    A connector and an acceptor on one connection, in either mode, the connector first and then in
    turns (`true` for the connector) until one fails or the peer is turned away. No byte is lost,
    repeated or reordered between them, and the acceptor stands where the configurations decide.
   */
  method BothEnds(c: Socket, a: Socket, turns: seq<bool>) returns (code: Code)
    requires c != a && c.Valid() && c.state == Initialized && a.Valid() && a.state == Initialized
    modifies c, a
    ensures code == Success ==> Joined(c, a) && (a.peers == [] ==> Decided(c, a))
    ensures code == Success && !a.asyncFlag ==> a.peers == [] && a.state in {Ready, Accepting}
    ensures code == Success && !c.asyncFlag ==> c.state == Ready
    ensures old(Reaches(c)) && old(Welcomes(a, c.magic + c.kind)) ==>
      code == Success && c.state == Ready && a.state == Ready
  {
    code := Meet(c, a);
    if code != Success { return; }
    code := TakeTurns(c, a, turns);
    if code == Success && a.peers == [] { JoinedIsDecided(c, a); }
  }

  /** The turns that follow, until a call fails or the peer is turned away. */
  method TakeTurns(c: Socket, a: Socket, turns: seq<bool>) returns (code: Code)
    requires c != a && Joined(c, a)
    modifies c, a
    ensures code == Success ==> Joined(c, a) && (old(a.peers) == [] ==> a.peers == [])
    ensures old(c.state) == Ready && code == Success ==> c.state == Ready
    ensures !a.asyncFlag && old(a.peers) == [] && old(a.state) in {Ready, Accepting} && code == Success ==>
      a.state in {Ready, Accepting}
    ensures old(c.state) == Ready && old(a.state) == Ready ==> code == Success && a.state == Ready
  {
    code := Success;
    var i := 0;
    while i < |turns| && (a.peers != [] || a.state != Accepting)
      invariant i <= |turns| && code == Success && Joined(c, a) && (old(a.peers) == [] ==> a.peers == [])
      invariant old(c.state) == Ready ==> c.state == Ready
      invariant !a.asyncFlag && old(a.peers) == [] && old(a.state) in {Ready, Accepting} ==>
        a.state in {Ready, Accepting}
      invariant old(a.state) == Ready ==> a.state == Ready
    {
      var running;
      if turns[i] {
        code, running := ConnectorTurn(c, a);
      } else {
        code, running := AcceptorTurn(c, a);
      }
      if code != Success { return; }
      i := i + 1;
    }
  }

  /** The first `n` steps move something, and none meets the abort flag. */
  ghost predicate Steady(script: seq<Step>, hasAbort: bool, n: nat) {
    && n <= |script|
    && (forall i :: 0 <= i < n ==> script[i].outcome.Moved? && script[i].outcome.n > 0)
    && (hasAbort ==> forall i :: 0 <= i < |script| ==> !script[i].abort)
  }

  /** One byte or more a step, in whatever chunks, ends a wait in success. */
  lemma {:induction false} WaitSucceeds(script: seq<Step>, hasAbort: bool, n: nat, left: nat, m: nat)
    requires n <= left && Steady(script, hasAbort, n + m)
    ensures var w := Wait(script, hasAbort, n, left);
      w.code == Success && w.moved == n && Steady(w.script, hasAbort, m)
    decreases |script|
  {
    if n > 0 {
      var t := Try(script, hasAbort, Min(n, left));
      assert Steady(script[1..], hasAbort, n - t.moved + m);
      WaitSucceeds(script[1..], hasAbort, n - t.moved, left - t.moved, m);
    }
  }

  lemma SendAllSucceeds(script: seq<Step>, hasAbort: bool)
    requires Steady(script, hasAbort, MAGIC_SIZE + TYPE_SIZE)
    ensures var w := SendAll(script, hasAbort); w.code == Success && Steady(w.script, hasAbort, 0)
    ensures var w := RecvAll(MAGIC_SIZE + TYPE_SIZE, true, script, hasAbort);
      w.code == Success && w.moved == MAGIC_SIZE + TYPE_SIZE && Steady(w.script, hasAbort, 0)
  {
    WaitSucceeds(script, hasAbort, MAGIC_SIZE, MAGIC_SIZE, TYPE_SIZE);
    WaitSucceeds(Wait(script, hasAbort, MAGIC_SIZE, MAGIC_SIZE).script, hasAbort, TYPE_SIZE, TYPE_SIZE, 0);
    WaitSucceeds(script, hasAbort, MAGIC_SIZE, MAGIC_SIZE + TYPE_SIZE, TYPE_SIZE);
    WaitSucceeds(Wait(script, hasAbort, MAGIC_SIZE, MAGIC_SIZE + TYPE_SIZE).script, hasAbort, TYPE_SIZE, TYPE_SIZE, 0);
  }

  /** Any two synchronous ends with the same magic and type end up Ready, if their system calls make progress. */
  method PairMeets(c: Socket, a: Socket, turns: seq<bool>) returns (code: Code)
    requires c != a && c.Valid() && c.state == Initialized && a.Valid() && a.state == Initialized
    requires !c.asyncFlag && !a.asyncFlag && c.magic == a.magic && c.kind == a.kind
    requires Steady(c.script, c.hasAbort, 1 + MAGIC_SIZE + TYPE_SIZE)
    requires Steady(a.script, a.hasAbort, 1 + MAGIC_SIZE + TYPE_SIZE)
    modifies c, a
    ensures code == Success && c.state == Ready && a.state == Ready
  {
    assert Reaches(c) by {
      c.DialSucceeds(c.script, false, c.errorRetries);
      SendAllSucceeds(Rest(c.script), c.hasAbort);
    }
    assert Welcomes(a, c.magic + c.kind) by { SteadyWelcomes(a, c.magic + c.kind); }
    code := BothEnds(c, a, turns);
  }

  lemma SteadyWelcomes(a: Socket, all: seq<byte>)
    requires !a.asyncFlag && Steady(a.script, a.hasAbort, 1 + MAGIC_SIZE + TYPE_SIZE) && all == a.magic + a.kind
    ensures Welcomes(a, all)
  {
    SendAllSucceeds(Rest(a.script), a.hasAbort);
    assert all[..MAGIC_SIZE] == a.magic && all[..MAGIC_SIZE + TYPE_SIZE] == all;
    assert a.Receive(0, all, Rest(a.script)).state == Ready;
    a.ServesRightPeer(a.script, [all], a.errorRetries, false);
  }

  /**
    An abort that strikes while three bytes of the magic are sent: the counter stays at 0, and the
    next call sends them again.
   */
  method AbortSendsTwice() returns (sock: Socket, first: Code, second: Code, running: bool)
    ensures first == InternalError && second == Success && running
    ensures sock.sent == sock.magic[..3] + (sock.magic + sock.kind) && sock.sent != sock.magic + sock.kind
  {
    var script := [Step(Moved(1), false), Step(Moved(3), true), Step(Moved(8), false), Step(Moved(4), false)];
    sock := new Socket([1, 0, 0, 0, 0, 0, 0, 0], [1, 0, 0, 0], true, true, false, 1, script, []);
    sock.DialSucceeds(script, false, 0);
    first := sock.Connect();
    assert Rest(script) == script[1..];
    assert sock.sent == sock.magic[..3];
    second, running := sock.CheckReady();
    assert |sock.sent| == 15;
  }

  /**
    The same while three bytes of the magic are received: the counter stays at 0, the next call takes
    the fourth byte for the first, and a peer with the right magic is turned away.
   */
  method AbortMisreads() returns (sock: Socket, first: Code, second: Code, running: bool)
    ensures first == InternalError && second == Success && !running && sock.state == Accepting
    ensures sock.received == (sock.magic + sock.kind)[..11]
  {
    var script := [Step(Moved(1), false), Step(Moved(3), true), Step(Moved(8), false)];
    var magic: Magic, kind: Type := [1, 0, 0, 0, 0, 0, 0, 0], [1, 0, 0, 0];
    sock := new Socket(magic, kind, true, true, false, 1, script, [magic + kind]);
    first := sock.Accept(Ready, true, false);
    assert Rest(script) == script[1..];
    assert sock.stream == (magic + kind)[3..] && sock.received == (magic + kind)[..3];
    assert sock.finalizeCounter == 0 && sock.state == Accepted && sock.script == script[2..];
    ghost var got := sock.finalizeBuffer[..0] + sock.stream[..8];
    assert got[0] == 0;
    assert sock.Rejects(0, sock.finalizeBuffer, sock.stream, sock.script);
    second, running := sock.CheckReady();
    assert sock.received + sock.stream == sock.magic + sock.kind;
  }
}
