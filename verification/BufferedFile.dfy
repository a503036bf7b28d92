/**
 The rate-limited output file (buffered_file.c:23-239): puts go to a backend that may take part
 of the data, ask to be tried later, or fail, and what it does not take is buffered.

 The backend's answer to its k-th call is an input. It never claims more than it was offered.
 */
module BufferedFile {
  import opened Common

  // ----- a run of offers as a function of the backend

  datatype Outcome = Taken | Frozen | Failed | Limited

  /** How much was taken, how many calls had been made afterwards, and why the run ended. */
  datatype Run = Run(sent: nat, calls: nat, out: Outcome)

  /** Bytes that still may be transferred before the limit is exceeded, or no limit. */
  datatype Allowance = Unlimited | Quota(xfer: nat, limit: nat)

  predicate Exceeded(q: Allowance) { q.Quota? && q.xfer > q.limit }

  function Charged(q: Allowance, n: nat): Allowance { if q.Quota? then q.(xfer := q.xfer + n) else q }

  function Answer(backend: nat -> int, call: nat, offered: nat): int {
    if backend(call) > offered then offered else backend(call)
  }

  /** Offer data until it is taken, the backend is not ready, it fails, or the limit is exceeded. */
  function Drain(backend: nat -> int, calls: nat, data: seq<byte>, q: Allowance): (r: Run)
    ensures r.sent <= |data| && r.calls >= calls
    ensures r.sent == |data| <==> r.out == Taken
    decreases |data|
  {
    if data == [] then Run(0, calls, Taken)
    else if Exceeded(q) then Run(0, calls, Limited)
    else
      var n := Answer(backend, calls, |data|);
      if n == -EAGAIN then Run(0, calls + 1, Frozen)
      else if n <= 0 then Run(0, calls + 1, Failed)
      else
        var rest := Drain(backend, calls + 1, data[n..], Charged(q, n));
        rest.(sent := n + rest.sent)
  }

  /** A run that gets nowhere was told to come back later, failed, or had nothing to offer. */
  lemma {:induction false} DrainStuck(backend: nat -> int, calls: nat, data: seq<byte>)
    requires data != [] && Drain(backend, calls, data, Unlimited).sent == 0
    ensures var r := Drain(backend, calls, data, Unlimited);
            r.calls == calls + 1 && (r.out == Failed || (r.out == Frozen && backend(calls) == -EAGAIN))
  {}

  /** The rest of a run after offset bytes of the data were taken. */
  ghost predicate Continues(backend: nat -> int, calls: nat, data: seq<byte>, q: Allowance, offset: nat, run: Run)
    requires offset <= |data|
  {
    var rest := Drain(backend, calls, data[offset..], q);
    rest.(sent := offset + rest.sent) == run
  }

  lemma {:induction false} ContinueStart(backend: nat -> int, calls: nat, data: seq<byte>, q: Allowance)
    ensures Continues(backend, calls, data, q, 0, Drain(backend, calls, data, q))
  {
    assert data[0..] == data;
    hide Drain;
  }

  lemma {:induction false} ContinueStep(backend: nat -> int, calls: nat, data: seq<byte>, q: Allowance, offset: nat,
                                        run: Run)
    requires offset < |data| && Continues(backend, calls, data, q, offset, run) && !Exceeded(q)
    ensures var n := Answer(backend, calls, |data| - offset);
            if n == -EAGAIN then run == Run(offset, calls + 1, Frozen)
            else if n <= 0 then run == Run(offset, calls + 1, Failed)
            else offset + n <= |data| && Continues(backend, calls + 1, data, Charged(q, n), offset + n, run)
  {
    var n := Answer(backend, calls, |data| - offset);
    if n > 0 { assert data[offset..][n..] == data[offset + n..]; }
  }

  lemma {:induction false} ContinueEnd(backend: nat -> int, calls: nat, data: seq<byte>, q: Allowance, offset: nat,
                                       run: Run)
    requires offset <= |data| && Continues(backend, calls, data, q, offset, run) && (offset == |data| || Exceeded(q))
    ensures run == Run(offset, calls, if offset == |data| then Taken else Limited)
  {}

  lemma {:induction false} NoLimitNoLimited(backend: nat -> int, calls: nat, data: seq<byte>)
    ensures Drain(backend, calls, data, Unlimited).out != Limited
    decreases |data|
  {
    if data != [] {
      var n := Answer(backend, calls, |data|);
      if n > 0 { NoLimitNoLimited(backend, calls + 1, data[n..]); }
    }
  }

  /** A backend that takes something or asks to be tried later never fails a run. */
  lemma {:induction false} NeverFails(backend: nat -> int, calls: nat, data: seq<byte>)
    requires forall k :: backend(k) > 0 || backend(k) == -EAGAIN
    ensures Drain(backend, calls, data, Unlimited).out != Failed
    decreases |data|
  {
    if data != [] {
      var n := Answer(backend, calls, |data|);
      if n > 0 { NeverFails(backend, calls + 1, data[n..]); }
    }
  }

  class File {
    var buffer: seq<byte>        // the buffer_size bytes in use
    var capacity: nat            // buffer_capacity
    var hasError: bool
    var freeze: bool             // freeze_output
    var xfer: nat                // bytes_xfer
    var limit: nat               // xfer_limit
    var calls: nat               // calls made to the backend
    const backend: nat -> int
    ghost var accepted: seq<byte>
    ghost var put: seq<byte>

    /** While there was no error, what the backend took and what is pending is what was put, in order. */
    ghost predicate Valid()
      reads this
    {
      |buffer| <= capacity && (!hasError ==> accepted + buffer == put)
    }

    constructor (rate: nat, backend: nat -> int)
      ensures Valid() && put == [] && buffer == [] && !hasError && this.backend == backend && calls == 0
      ensures xfer == 0 && limit == rate / 10
    {
      buffer, capacity, hasError, freeze, xfer, limit, calls := [], 0, false, false, 0, rate / 10, 0;
      this.backend := backend;
      accepted, put := [], [];
    }

    /** One call of the backend. */
    method Offer(data: seq<byte>) returns (ret: int)
      requires data != []
      modifies this`calls, this`accepted
      ensures calls == old(calls) + 1 && ret == Answer(backend, old(calls), |data|)
      ensures accepted == old(accepted) + if ret > 0 then data[..ret] else []
    {
      ret := Answer(backend, calls, |data|);
      calls := calls + 1;
      if ret > 0 { accepted := accepted + data[..ret]; }
    }

    /** buffered_append: the copy always fits. */
    method Append(data: seq<byte>)
      requires |buffer| <= capacity
      modifies this`buffer, this`capacity
      ensures buffer == old(buffer) + data && |buffer| <= capacity
    {
      if |data| > capacity - |buffer| { capacity := capacity + |data| + 1024; }
      buffer := buffer + data;
    }

    /** buffered_flush: a front part of the buffer goes to the backend. */
    method Flush() returns (ghost run: Run)
      requires |buffer| <= capacity
      modifies this`buffer, this`hasError, this`freeze, this`calls, this`accepted
      ensures |buffer| <= capacity
      ensures run == if old(hasError) then Run(0, old(calls), Failed)
                     else Drain(backend, old(calls), old(buffer), Unlimited)
      ensures calls == run.calls && run.sent <= |old(buffer)|
      ensures accepted == old(accepted) + old(buffer)[..run.sent] && buffer == old(buffer)[run.sent..]
      ensures hasError == (old(hasError) || run.out == Failed) && freeze == (old(freeze) || run.out == Frozen)
    {
      hide Drain, Continues;
      if hasError { return Run(0, calls, Failed); }
      var data := buffer;
      run := Drain(backend, calls, data, Unlimited);
      ContinueStart(backend, calls, data, Unlimited);
      var offset := 0;
      while offset < |data|
        invariant offset <= |data| && hasError == old(hasError) && freeze == old(freeze) && buffer == data
        invariant accepted == old(accepted) + data[..offset] && Continues(backend, calls, data, Unlimited, offset, run)
      {
        ContinueStep(backend, calls, data, Unlimited, offset, run);
        var ret := Offer(data[offset..]);
        if ret == -EAGAIN {
          freeze := true;
          buffer := data[offset..];
          return;
        }
        if ret <= 0 {
          hasError := true;
          buffer := data[offset..];
          return;
        }
        TakeMore(data, offset, ret);
        offset := offset + ret;
      }
      ContinueEnd(backend, calls, data, Unlimited, offset, run);
      buffer := data[offset..];
    }

    /** The loop of buffered_put_buffer that offers the new data to the backend. */
    method PutDirect(data: seq<byte>) returns (ret: int, ghost run: Run)
      modifies this`hasError, this`freeze, this`xfer, this`calls, this`accepted
      ensures run == if old(freeze) then Run(0, old(calls), Frozen)
                     else Drain(backend, old(calls), data, Quota(old(xfer), limit))
      ensures calls == run.calls && run.sent <= |data| && accepted == old(accepted) + data[..run.sent]
      ensures hasError == (old(hasError) || run.out == Failed) && freeze == (run.out == Frozen)
      ensures xfer == old(xfer) + run.sent && ret == if run.out == Failed then -EINVAL else run.sent
    {
      ContinueStart(backend, calls, data, Quota(xfer, limit));
      hide Drain, Continues;
      run := if freeze then Run(0, calls, Frozen) else Drain(backend, calls, data, Quota(xfer, limit));
      var offset := 0;
      while !freeze && offset < |data|
        invariant 0 <= offset <= |data| && accepted == old(accepted) + data[..offset] && hasError == old(hasError)
        invariant freeze == old(freeze) && xfer == old(xfer) + offset
        invariant freeze ==> offset == 0 && calls == old(calls)
        invariant !freeze ==> Continues(backend, calls, data, Quota(xfer, limit), offset, run)
        decreases |data| - offset
      {
        if xfer > limit { break; }
        ContinueStep(backend, calls, data, Quota(xfer, limit), offset, run);
        var r := Offer(data[offset..]);
        if r == -EAGAIN {
          freeze := true;
          return offset, run;
        }
        if r <= 0 {
          hasError := true;
          return -EINVAL, run;
        }
        TakeMore(data, offset, r);
        offset := offset + r;
        xfer := xfer + r;
      }
      if !freeze { ContinueEnd(backend, calls, data, Quota(xfer, limit), offset, run); }
      ret := offset;
    }

    /** buffered_put_buffer. The backend takes a front part of the buffer and then a front part of the data;
        the rest is pending. New data overtakes pending data exactly when the flush failed and the backend
        then took some of the data, and the error flag is set then. */
    method Put(data: seq<byte>) returns (ret: int, ghost flush: Run, ghost direct: Run)
      requires Valid()
      modifies this
      ensures Valid()
      ensures old(hasError) ==>
                hasError && ret == -EINVAL && put == old(put) && accepted == old(accepted) && buffer == old(buffer)
      ensures !old(hasError) ==>
                && flush == Drain(backend, old(calls), old(buffer), Unlimited)
                && direct == (if flush.out == Frozen then Run(0, flush.calls, Frozen)
                              else Drain(backend, flush.calls, data, Quota(old(xfer), limit)))
                && put == old(put) + data && calls == direct.calls && limit == old(limit)
                && xfer == old(xfer) + direct.sent
                && accepted == old(accepted) + old(buffer)[..flush.sent] + data[..direct.sent]
                && buffer == old(buffer)[flush.sent..] + (if direct.out == Failed then [] else data[direct.sent..])
                && hasError == (flush.out == Failed || direct.out == Failed)
                && ret == (if direct.out == Failed then -EINVAL else |data|)
      ensures !old(hasError) && flush.sent < |old(buffer)| && direct.sent > 0 ==> flush.out == Failed && hasError
    {
      hide Drain;
      if hasError { return -EINVAL, Run(0, calls, Failed), Run(0, calls, Failed); }
      freeze := false;
      flush := Flush();
      NoLimitNoLimited(backend, old(calls), old(buffer));
      put := put + data;
      ret, direct := PutDirect(data);
      PutOrder(old(accepted), old(buffer), data, flush.sent, direct.sent);
      if ret >= 0 {
        Append(data[ret..]);
        ret := |data|;
      }
    }

    /** buffered_rate_tick. */
    method RateTick()
      requires Valid()
      modifies this
      ensures Valid() && put == old(put) && (old(hasError) ==> hasError && accepted == old(accepted))
      ensures if old(hasError) || old(freeze) then buffer == old(buffer) && accepted == old(accepted)
              else
                var run := Drain(backend, old(calls), old(buffer), Unlimited);
                xfer == 0 && accepted == old(accepted) + old(buffer)[..run.sent] && buffer == old(buffer)[run.sent..] &&
                hasError == (run.out == Failed) && freeze == (run.out == Frozen)
    {
      hide Drain;
      if hasError || freeze { return; }
      xfer := 0;
      ghost var run := Flush();
      NoLimitNoLimited(backend, old(calls), old(buffer));
      FlushOrder(old(accepted), old(buffer), run.sent);
    }

    /** buffered_set_rate_limit. */
    method SetRateLimit(rate: nat) returns (r: nat)
      requires Valid()
      modifies this`limit
      ensures Valid() && r == limit == if hasError then old(limit) else rate / 10
    {
      if !hasError { limit := rate / 10; }
      r := limit;
    }

    /** buffered_close, for a backend that asks to be tried later only finitely often: it ends, and if it
        ends without an error everything that was put has been accepted, in order. */
    method Close(ghost ready: nat)
      requires Valid() && forall k :: k >= ready ==> backend(k) != -EAGAIN
      modifies this
      ensures Valid() && put == old(put) && (old(hasError) ==> hasError)
      ensures !hasError ==> accepted == put && buffer == []
      ensures !old(hasError) && (forall k :: backend(k) > 0 || backend(k) == -EAGAIN) ==> !hasError
    {
      hide Drain;
      while !hasError && |buffer| != 0
        invariant Valid() && put == old(put) && (old(hasError) ==> hasError)
        invariant !old(hasError) && (forall k :: backend(k) > 0 || backend(k) == -EAGAIN) ==> !hasError
        decreases !hasError, |buffer|, if calls < ready then ready - calls else 0
      {
        ghost var (before, taken, c) := (buffer, accepted, calls);
        ghost var run := Flush();
        if run.sent == 0 { DrainStuck(backend, c, before); }
        if forall k :: backend(k) > 0 || backend(k) == -EAGAIN { NeverFails(backend, c, before); }
        FlushOrder(taken, before, run.sent);
      }
    }
  }

  /** Nothing is lost or moved when the flush takes all there is, or the data is not offered. */
  lemma {:induction false} PutOrder(accepted: seq<byte>, buffer: seq<byte>, data: seq<byte>, sent: nat, direct: nat)
    requires sent <= |buffer| && direct <= |data|
    ensures sent == |buffer| || direct == 0 ==>
              accepted + buffer[..sent] + data[..direct] + (buffer[sent..] + data[direct..]) == accepted + buffer + data
  {
    assert buffer[..sent] + buffer[sent..] == buffer && data[..direct] + data[direct..] == data;
  }

  lemma {:induction false} FlushOrder(accepted: seq<byte>, buffer: seq<byte>, sent: nat)
    requires sent <= |buffer|
    ensures accepted + buffer[..sent] + buffer[sent..] == accepted + buffer
  {}

  /** A backend that is not ready, then fails on the pending byte, then takes the newer one. */
  const Fickle: nat -> int := k => if k == 0 then -EAGAIN else if k == 1 then 0 else 1

  /** The newer byte overtakes, and the put that let it through reports success. */
  method Overtaken() returns (f: File, ret: int)
    ensures f.put == [1, 2] && f.accepted == [2] && f.buffer == [1] && f.hasError && ret == 1
  {
    FickleRuns();
    hide Drain;
    f := new File(10, Fickle);
    ghost var a, b;
    ret, a, b := f.Put([1]);
    assert f.accepted == [] && f.buffer == [1] && f.calls == 1;
    ret, a, b := f.Put([2]);
    assert a == Run(0, 2, Failed) && b == Run(1, 3, Taken);
  }

  lemma {:induction false} FickleRuns()
    ensures Drain(Fickle, 0, [], Unlimited) == Run(0, 0, Taken)
    ensures Drain(Fickle, 0, [1], Quota(0, 1)) == Run(0, 1, Frozen)
    ensures Drain(Fickle, 1, [1], Unlimited) == Run(0, 2, Failed)
    ensures Drain(Fickle, 2, [2], Quota(0, 1)) == Run(1, 3, Taken)
  {
    assert [2][1..] == [];
  }
}
