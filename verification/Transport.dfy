// app/rs485-test/src/lib.rs: transfers over a nonblocking descriptor that moves
// any number of bytes at a time, until everything moved or the deadline passed.

module Transport {
  import opened Common

  datatype IoKind = TimedOut | BrokenPipe | WriteZero | UnexpectedEof | Other

  /** What one turn of a transfer loop meets: waiting failed, bytes moved, EINTR or EAGAIN, or a failed call. */
  datatype Event = Unready(error: IoKind) | Count(n: nat) | Again | Failed(fault: IoKind)

  datatype Transferred = Transferred(error: Option<IoKind>, moved: nat, script: seq<Event>)

  /** What the next turn answers when at most `limit` bytes can move; the deadline expires where the script ends. */
  function TurnOf(script: seq<Event>, limit: nat): (answer: Event)
    ensures answer.Count? ==> answer.n <= limit
  {
    if script == [] then Unready(TimedOut)
    else if script[0].Count? then Count(Min(script[0].n, limit))
    else script[0]
  }

  function After(script: seq<Event>): seq<Event> {
    if script == [] then [] else script[1..]
  }

  /** The effect of a transfer loop that wants `want` of the `available` bytes and has moved `done` of them. */
  function Resume(script: seq<Event>, done: nat, want: nat, available: nat, nothing: IoKind): Transferred
    requires done <= want && done <= available
    decreases |script|, want - done
  {
    if want == done then Transferred(None, done, script)
    else match TurnOf(script, Min(want, available) - done)
      case Unready(e) => Transferred(Some(e), done, After(script))
      case Failed(e) => Transferred(Some(e), done, After(script))
      case Again => Resume(After(script), done, want, available, nothing)
      case Count(k) =>
        if k == 0 then Transferred(Some(nothing), done, After(script))
        else Resume(After(script), done + k, want, available, nothing)
  }

  function Transfer(script: seq<Event>, want: nat, available: nat, nothing: IoKind): (t: Transferred)
    ensures t.moved <= want && t.moved <= available && (t.error.None? <==> t.moved == want)
  {
    ResumeExact(script, 0, want, available, nothing);
    Resume(script, 0, want, available, nothing)
  }

  /** A transfer succeeds exactly when every wanted byte moved. */
  lemma {:induction false} ResumeExact(script: seq<Event>, done: nat, want: nat, available: nat, nothing: IoKind)
    requires done <= want && done <= available
    ensures var t := Resume(script, done, want, available, nothing);
      && done <= t.moved <= want
      && t.moved <= available
      && (t.error.None? <==> t.moved == want)
    decreases |script|
  {
    if done < want {
      match TurnOf(script, Min(want, available) - done)
      case Again =>
        ResumeExact(After(script), done, want, available, nothing);
      case Count(k) =>
        if k > 0 {
          ResumeExact(After(script), done + k, want, available, nothing);
        }
      case Unready(_) =>
      case Failed(_) =>
    }
  }

  /** The turns up to `k` move something or have to be repeated, and move `moved` bytes of at most `limit` together. */
  ghost predicate Advances(script: seq<Event>, k: nat, limit: nat, moved: nat)
    decreases k
  {
    if k == 0 then moved == 0
    else
      && script != []
      && if script[0] == Again then Advances(script[1..], k - 1, limit, moved)
         else
           && script[0].Count? && 0 < Min(script[0].n, limit) <= moved
           && Advances(script[1..], k - 1, limit - Min(script[0].n, limit), moved - Min(script[0].n, limit))
  }

  /** What a turn that ends a transfer early answers: the error of the call or the wait, or `nothing` for zero bytes. */
  predicate Breaks(script: seq<Event>, limit: nat, nothing: IoKind, error: IoKind) {
    match TurnOf(script, limit)
    case Unready(e) => error == e
    case Failed(e) => error == e
    case Count(n) => n == 0 && error == nothing
    case Again => false
  }

  /**
   * The transfer `t` ends after `k` turns that move bytes or repeat: everything wanted has
   * moved, or the next turn fails with the error reported, and no later turn is spent.
   */
  ghost predicate EndsAfter(script: seq<Event>, k: nat, done: nat, want: nat, available: nat, nothing: IoKind,
                            t: Transferred) {
    var limit := Min(want, available);
    && done <= t.moved <= limit && k <= |script|
    && Advances(script, k, limit - done, t.moved - done)
    && match t.error
       case None => t.moved == want && t.script == script[k..]
       case Some(e) =>
         t.moved < want && Breaks(script[k..], limit - t.moved, nothing, e) && t.script == After(script[k..])
  }

  lemma OneMore(script: seq<Event>, k: nat, done: nat, n: nat, want: nat, available: nat, nothing: IoKind,
                t: Transferred)
    requires script != [] && done + n <= want && done + n <= available
    requires if script[0] == Again then n == 0
             else script[0].Count? && 0 < n == Min(script[0].n, Min(want, available) - done)
    requires EndsAfter(script[1..], k, done + n, want, available, nothing, t)
    ensures EndsAfter(script, k + 1, done, want, available, nothing, t)
  {
    assert script[1..][k..] == script[k + 1..];
  }

  /** How every transfer ends. */
  lemma {:induction false} TransferEnds(script: seq<Event>, done: nat, want: nat, available: nat, nothing: IoKind)
    requires done <= want && done <= available
    ensures exists k: nat ::
              EndsAfter(script, k, done, want, available, nothing, Resume(script, done, want, available, nothing))
    decreases |script|
  {
    var t := Resume(script, done, want, available, nothing);
    var limit := Min(want, available) - done;
    var n := if script != [] && script[0].Count? then Min(script[0].n, limit) else 0;
    if done < want && script != [] && (script[0] == Again || n > 0) {
      TransferEnds(script[1..], done + n, want, available, nothing);
      var k: nat :| EndsAfter(script[1..], k, done + n, want, available, nothing, t);
      OneMore(script, k, done, n, want, available, nothing, t);
    } else {
      assert script[0..] == script;
      assert EndsAfter(script, 0, done, want, available, nothing, t);
    }
  }

  /** How many turns of a script move something. */
  function Turns(script: seq<Event>): nat {
    if script == [] then 0 else (if script[0].Count? then 1 else 0) + Turns(script[1..])
  }

  predicate Steady(script: seq<Event>) {
    script == [] || ((script[0] == Again || (script[0].Count? && script[0].n > 0)) && Steady(script[1..]))
  }

  /** What a completed transfer leaves for the next one: at most one turn was spent for each byte moved. */
  lemma {:induction false} ResumeCompletes(script: seq<Event>, done: nat, want: nat, available: nat, nothing: IoKind)
    requires Steady(script) && done <= want <= available && want <= done + Turns(script)
    ensures var t := Resume(script, done, want, available, nothing);
      t.error.None? && Steady(t.script) && Turns(script) <= Turns(t.script) + (want - done)
    decreases |script|
  {
    if done < want {
      match TurnOf(script, want - done)
      case Again =>
        ResumeCompletes(After(script), done, want, available, nothing);
      case Count(k) =>
        ResumeCompletes(After(script), done + k, want, available, nothing);
    }
  }

  /** Interruptions and short counts never fail a transfer: one byte per productive turn is enough. */
  lemma TransferCompletes(script: seq<Event>, want: nat, available: nat, nothing: IoKind)
    requires Steady(script) && want <= available && want <= Turns(script)
    ensures var t := Transfer(script, want, available, nothing);
      && t.error == None && t.moved == want
      && Steady(t.script) && Turns(script) <= Turns(t.script) + want
  {
    ResumeCompletes(script, 0, want, available, nothing);
  }

  /** The schedule lets at least `n` turns move something and none fail. */
  predicate Ample(script: seq<Event>, n: nat) {
    Steady(script) && n <= Turns(script)
  }

  lemma TakeMore(s: seq<Byte>, done: nat, count: nat)
    requires done + count <= |s|
    ensures s[..done] + s[done..][..count] == s[..done + count] && s[done..][count..] == s[done + count..]
  {
  }

  lemma AppendMore(before: seq<Byte>, s: seq<Byte>, done: nat, count: nat)
    requires done + count <= |s|
    ensures before + s[..done] + s[done..][..count] == before + s[..done + count]
  {
  }

  class File {
    /** What the next turns of the transfer loops will meet. */
    var script: seq<Event>
    /** Bytes on their way to this descriptor, and bytes it has accepted. */
    var incoming: seq<Byte>
    var sent: seq<Byte>

    constructor (script: seq<Event>, incoming: seq<Byte>)
      ensures this.script == script && this.incoming == incoming && sent == []
    {
      this.script, this.incoming, sent := script, incoming, [];
    }

    /**
     * wait_ready, which fails once the deadline is over, and then the answer of the
     * call itself, for at most `limit` bytes.
     */
    method Turn(limit: nat) returns (answer: Event)
      modifies `script
      ensures answer == TurnOf(old(script), limit) && script == After(old(script))
    {
      answer := if script == [] then Unready(TimedOut) else script[0];
      if answer.Count? {
        answer := Count(Min(answer.n, limit));
      }
      script := if script == [] then [] else script[1..];
    }

    method WriteDeadline(bytes: seq<Byte>) returns (error: Option<IoKind>)
      modifies `script, `sent
      ensures var t := Transfer(old(script), |bytes|, |bytes|, WriteZero);
        && error == t.error && script == t.script
        && t.moved <= |bytes| && sent == old(sent) + bytes[..t.moved]
        && (error.None? <==> t.moved == |bytes|)
    {
      ghost var goal := Transfer(script, |bytes|, |bytes|, WriteZero);
      ghost var done: nat := 0;
      var data := bytes;
      while data != []
        invariant done <= |bytes| && data == bytes[done..]
        invariant sent == old(sent) + bytes[..done]
        invariant Resume(script, done, |bytes|, |bytes|, WriteZero) == goal
        decreases |script|, |data|
      {
        var answer := Turn(|data|);
        match answer
        case Unready(e) =>
          return Some(e);
        case Failed(e) =>
          return Some(e);
        case Again =>
        case Count(count) =>
          if count == 0 {
            return Some(WriteZero);
          }
          AppendMore(old(sent), bytes, done, count);
          sent := sent + data[..count];
          data := data[count..];
          done := done + count;
      }
      return None;
    }

    /**
     * One wait and one read call into `data` from index `at` on; `whole` is what the
     * buffer and the stream hold together.
     */
    method Read(data: array<Byte>, at: nat, ghost whole: seq<Byte>) returns (answer: Event)
      requires at <= data.Length && at <= |whole| && incoming == whole[at..] && data[..at] == whole[..at]
      modifies `script, `incoming, data
      ensures answer == TurnOf(old(script), Min(data.Length - at, |whole| - at)) && script == After(old(script))
      ensures var next := if answer.Count? then at + answer.n else at;
        incoming == whole[next..] && data[..next] == whole[..next]
    {
      answer := Turn(Min(data.Length - at, |incoming|));
      if answer.Count? {
        forall i | 0 <= i < answer.n {
          data[at + i] := incoming[i];
        }
        incoming := incoming[answer.n..];
      }
    }

    /** Fills `data` from index `start` on, taking the bytes off the stream. */
    method ReadDeadline(data: array<Byte>, start: nat) returns (error: Option<IoKind>)
      requires start <= data.Length
      modifies `script, `incoming, data
      ensures var t := Transfer(old(script), data.Length - start, |old(incoming)|, UnexpectedEof);
        && error == t.error && script == t.script
        && start + t.moved <= data.Length && t.moved <= |old(incoming)|
        && incoming == old(incoming)[t.moved..]
        && data[..start + t.moved] == old(data[..start]) + old(incoming)[..t.moved]
        && (error.None? <==> t.moved == data.Length - start)
    {
      ghost var before, stream := data[..start], incoming;
      ghost var whole := before + stream;
      ghost var goal := Transfer(script, data.Length - start, |incoming|, UnexpectedEof);
      var at := start;
      error := None;
      while at < data.Length
        invariant error == None
        invariant start <= at <= data.Length && at <= |whole|
        invariant incoming == whole[at..] && data[..at] == whole[..at]
        invariant Resume(script, at - start, data.Length - start, |stream|, UnexpectedEof) == goal
        decreases |script|, data.Length - at
      {
        assert Min(data.Length - at, |whole| - at) == Min(data.Length - start, |stream|) - (at - start);
        var answer := Read(data, at, whole);
        match answer
        case Unready(e) =>
          error := Some(e);
          break;
        case Failed(e) =>
          error := Some(e);
          break;
        case Again =>
        case Count(count) =>
          if count == 0 {
            error := Some(UnexpectedEof);
            break;
          }
          at := at + count;
      }
      assert goal == Transferred(error, at - start, script);
      assert whole[..at] == before + stream[..at - start] && whole[at..] == stream[at - start..];
    }
  }
}
