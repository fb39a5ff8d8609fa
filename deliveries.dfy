/** Successive deliveries to one conversation, each handled by a freshly built handler.
    The source runs one handler per request; these functions only compose `Gate`. */
module Deliveries {
  import opened Messages
  import opened Dedup

  /** One delivery to a freshly built handler. */
  function Deliver(useMessageContext: bool, hooks: Hooks, omitRepeatedMessage: bool,
                   history: seq<RequestMessage>, request: RequestMessage): GateOutcome
  {
    Gate(useMessageContext, hooks, Fresh(omitRepeatedMessage), history, request)
  }

  /** The history after delivering `trace` in order. */
  function Replay(useMessageContext: bool, hooks: Hooks, omitRepeatedMessage: bool,
                  history: seq<RequestMessage>, trace: seq<RequestMessage>): seq<RequestMessage>
    decreases |trace|
  {
    if trace == [] then history
    else
      var step := Deliver(useMessageContext, hooks, omitRepeatedMessage, history, trace[0]);
      Replay(useMessageContext, hooks, omitRepeatedMessage, step.history, trace[1..])
  }

  /** How many deliveries of `trace` were admitted (not marked repeated). */
  function Admitted(useMessageContext: bool, hooks: Hooks, omitRepeatedMessage: bool,
                    history: seq<RequestMessage>, trace: seq<RequestMessage>): nat
    decreases |trace|
  {
    if trace == [] then 0
    else
      var step := Deliver(useMessageContext, hooks, omitRepeatedMessage, history, trace[0]);
      (if step.state.MessageIsRepeated then 0 else 1) +
      Admitted(useMessageContext, hooks, omitRepeatedMessage, step.history, trace[1..])
  }

  /** No stored record repeats the one stored just before it. */
  ghost predicate NoAdjacentRepeats(history: seq<RequestMessage>)
  {
    forall i :: 0 < i < |history| ==> !IsRepeatOf(history[i - 1], history[i])
  }

  function Copies(m: RequestMessage, k: nat): (c: seq<RequestMessage>)
    ensures |c| == k && forall i :: 0 <= i < k ==> c[i] == m
  {
    seq(k, _ => m)
  }

  /** With the comparison switched on for every delivery, the gate never stores a record that
      repeats its predecessor. */
  lemma {:induction false} ReplayKeepsNoAdjacentRepeats(useMessageContext: bool, hooks: Hooks, omitRepeatedMessage: bool,
                                                        history: seq<RequestMessage>, trace: seq<RequestMessage>)
    requires NoAdjacentRepeats(history)
    requires forall r :: r in trace ==> DedupActive(hooks, omitRepeatedMessage, r)
    ensures NoAdjacentRepeats(Replay(useMessageContext, hooks, omitRepeatedMessage, history, trace))
    decreases |trace|
  {
    if trace != [] {
      var step := Deliver(useMessageContext, hooks, omitRepeatedMessage, history, trace[0]);
      assert trace[0] in trace;
      if step.history != history {
        var h := step.history;
        assert h == history + [trace[0]];
        forall i | 0 < i < |h| ensures !IsRepeatOf(h[i - 1], h[i]) {
          if i == |history| {
            assert h[i - 1] == Last(history) && h[i] == trace[0];
          } else {
            assert h[i - 1] == history[i - 1] && h[i] == history[i];
          }
        }
      }
      forall r | r in trace[1..] ensures DedupActive(hooks, omitRepeatedMessage, r) {
        assert r in trace;
      }
      ReplayKeepsNoAdjacentRepeats(useMessageContext, hooks, omitRepeatedMessage, step.history, trace[1..]);
    }
  }

  /** The gate only appends: the old history is a prefix of the new one, the new part is at most
      as long as the trace, and every record in it was delivered. */
  lemma {:induction false} ReplayOnlyAppends(useMessageContext: bool, hooks: Hooks, omitRepeatedMessage: bool,
                                             history: seq<RequestMessage>, trace: seq<RequestMessage>)
    ensures var after := Replay(useMessageContext, hooks, omitRepeatedMessage, history, trace);
      history <= after && |after| <= |history| + |trace| &&
      forall i :: |history| <= i < |after| ==> after[i] in trace
    decreases |trace|
  {
    if trace != [] {
      var step := Deliver(useMessageContext, hooks, omitRepeatedMessage, history, trace[0]);
      ReplayOnlyAppends(useMessageContext, hooks, omitRepeatedMessage, step.history, trace[1..]);
      var after := Replay(useMessageContext, hooks, omitRepeatedMessage, history, trace);
      forall i | |history| <= i < |after| ensures after[i] in trace {
        if i < |step.history| {
          assert step.history == history + [trace[0]];
          assert after[i] == step.history[i] == trace[0];
        } else {
          assert after[i] in trace[1..];
        }
      }
    }
  }

  /** Redelivering one request (not Unknown, comparison switched on) k >= 1 times has the effect
      of delivering it once: the same history and the same number of admissions, at most one.
      On a fresh conversation exactly one copy is admitted and stored. */
  lemma {:induction false} RedeliveryIsIdempotent(hooks: Hooks, omitRepeatedMessage: bool,
                                                  history: seq<RequestMessage>, m: RequestMessage, k: nat)
    requires k >= 1
    requires m.MsgType != Unknown
    requires DedupActive(hooks, omitRepeatedMessage, m)
    ensures Replay(true, hooks, omitRepeatedMessage, history, Copies(m, k)) ==
            Replay(true, hooks, omitRepeatedMessage, history, [m])
    ensures Admitted(true, hooks, omitRepeatedMessage, history, Copies(m, k)) ==
            Admitted(true, hooks, omitRepeatedMessage, history, [m]) <= 1
    ensures history == [] ==>
            Replay(true, hooks, omitRepeatedMessage, history, Copies(m, k)) == [m] &&
            Admitted(true, hooks, omitRepeatedMessage, history, Copies(m, k)) == 1
    decreases k
  {
    var first := Deliver(true, hooks, omitRepeatedMessage, history, m);
    var c := Copies(m, k);
    assert c[0] == m;
    if k == 1 {
      assert c == [m];
    } else {
      assert c[1..] == Copies(m, k - 1);
      var second := Deliver(true, hooks, omitRepeatedMessage, first.history, m);
      if first.state.MessageIsRepeated {
        assert first.history == history;
      } else {
        assert first.history == history + [m];
        RepeatOfItself(m);
      }
      assert second.state.MessageIsRepeated && second.history == first.history;
      RedeliveryIsIdempotent(hooks, omitRepeatedMessage, first.history, m, k - 1);
      assert [m][1..] == [];
    }
  }

  /** A request of type Unknown is never stored, so each redelivery is judged against the same
      last record: the history stays as it was and every copy gets the first copy's verdict.
      With the comparison off or nothing stored yet, every copy is admitted. */
  lemma {:induction false} UnknownRedeliveryIsNeverStored(useMessageContext: bool, hooks: Hooks, omitRepeatedMessage: bool,
                                                          history: seq<RequestMessage>, m: RequestMessage, k: nat)
    requires m.MsgType == Unknown
    ensures Replay(useMessageContext, hooks, omitRepeatedMessage, history, Copies(m, k)) == history
    ensures Admitted(useMessageContext, hooks, omitRepeatedMessage, history, Copies(m, k)) ==
            k * Admitted(useMessageContext, hooks, omitRepeatedMessage, history, [m])
    ensures history == [] || !DedupActive(hooks, omitRepeatedMessage, m) ==>
            Admitted(useMessageContext, hooks, omitRepeatedMessage, history, Copies(m, k)) == k
    decreases k
  {
    var c := Copies(m, k);
    var once := Admitted(useMessageContext, hooks, omitRepeatedMessage, history, [m]);
    assert [m][1..] == [];
    if k > 0 {
      assert c[0] == m && c[1..] == Copies(m, k - 1);
      var step := Deliver(useMessageContext, hooks, omitRepeatedMessage, history, m);
      assert step.history == history;
      UnknownRedeliveryIsNeverStored(useMessageContext, hooks, omitRepeatedMessage, history, m, k - 1);
      assert Admitted(useMessageContext, hooks, omitRepeatedMessage, history, c) == once + (k - 1) * once;
    }
  }
}
