/** Topup orders: paid by a notice, then carried out by a background job that calls the provider. */
module Topups {
  import opened Domain

  datatype TopupStatus = TopupPending | TopupPaid | TopupCompleted | TopupFailed | ManualIntervention | TopupRefunded
  datatype TopupProvider = Airalo | EsimAccess | GadgetKorea | Unsupported

  /** The run of executeTopup that a payment schedules; saved tells whether its last write reached the database. */
  datatype Job = NoJob | Scheduled | Calling | Finished(saved: bool)

  /** Absent strings read as empty. calls counts the requests made to the provider. */
  datatype Topup = Topup(status: TopupStatus, provider: Option<TopupProvider>, package: string, iccid: string,
                         price: nat,
                         paymentId: Option<string>, refunded: nat, job: Job, calls: nat)

  datatype TopupEvent =
    | Notice(success: bool, paymentId: Option<string>)
    | BeginJob(esimKnown: bool, saved: bool)
    | EndJob(accepted: bool, completionSaved: bool, manualSaved: bool)
    | FailPending
    | RefundTopup(amount: int)

  predicate Fresh(t: Topup) {
    t.status == TopupPending && t.paymentId.None? && t.refunded == 0 && t.job == NoJob && t.calls == 0
  }

  /** handleTopupIpn on an order it found. */
  function OnNotice(t: Topup, success: bool, paymentId: Option<string>): Topup {
    if t.status != TopupPending then t
    else if !success then t.(status := TopupFailed)
    else t.(status := TopupPaid, paymentId := paymentId, job := Scheduled)
  }

  /** markManualIntervention: a write that fails is only logged. */
  function MarkManual(t: Topup, saved: bool): Topup {
    t.(status := if saved then ManualIntervention else t.status, job := Finished(saved))
  }

  /** executeTopup up to the provider call. Only Gadget Korea needs the eSIM's own record. */
  function Begin(t: Topup, esimKnown: bool, saved: bool): Topup {
    if t.job != Scheduled then t
    else if t.status == TopupCompleted || t.status == ManualIntervention then t.(job := Finished(true))
    else if t.provider.None? || t.package == "" || t.iccid == "" then MarkManual(t, saved)
    else if t.provider.value == Unsupported || (t.provider.value == GadgetKorea && !esimKnown) then MarkManual(t, saved)
    else t.(job := Calling, calls := t.calls + 1)
  }

  /** executeTopup after the provider answered or threw. */
  function End(t: Topup, accepted: bool, completionSaved: bool, manualSaved: bool): Topup {
    if t.job != Calling then t
    else if accepted && completionSaved then t.(status := TopupCompleted, job := Finished(true))
    else MarkManual(t, manualSaved)
  }

  predicate RefundAccepted(t: Topup, amount: int) {
    (t.status == TopupPaid || t.status == TopupRefunded) && 0 <= amount <= t.price - t.refunded
  }

  /** refundOrder as it reads and writes a topup's row. */
  function OnRefund(t: Topup, amount: int): Topup {
    if RefundAccepted(t, amount) then
      t.(status := TopupRefunded, refunded := t.refunded + amount)
    else t
  }

  function OnEvent(t: Topup, e: TopupEvent): Topup {
    match e
    case Notice(success, paymentId) => OnNotice(t, success, paymentId)
    case BeginJob(esimKnown, saved) => Begin(t, esimKnown, saved)
    case EndJob(accepted, completionSaved, manualSaved) => End(t, accepted, completionSaved, manualSaved)
    case FailPending => if t.status == TopupPending then t.(status := TopupFailed) else t
    case RefundTopup(amount) => OnRefund(t, amount)
  }

  function RunTopup(t: Topup, events: seq<TopupEvent>): Topup {
    if |events| == 0 then t
    else OnEvent(RunTopup(t, events[..|events| - 1]), events[|events| - 1])
  }

  /** Where the order's status, its job and the provider's calls can stand to each other. */
  predicate TopupOk(t: Topup) {
    && t.refunded <= t.price
    && match t.job
       case NoJob => (t.status == TopupPending || t.status == TopupFailed) && t.calls == 0 && t.refunded == 0
       case Scheduled => (t.status == TopupPaid || t.status == TopupRefunded) && t.calls == 0
       case Calling => (t.status == TopupPaid || t.status == TopupRefunded) && t.calls == 1
       case Finished(saved) =>
         && t.calls <= 1
         && if saved then t.status == ManualIntervention || (t.status == TopupCompleted && t.calls == 1)
            else t.status == TopupPaid || t.status == TopupRefunded
  }

  lemma EventKeeps(t: Topup, e: TopupEvent)
    requires TopupOk(t)
    ensures TopupOk(OnEvent(t, e)) && (t.status != TopupPending ==> OnEvent(t, e).status != TopupPending)
  {
  }

  /** The notice that paid it: a successful one that found the order still pending, all later ones ignored. */
  predicate PaidBy(t0: Topup, events: seq<TopupEvent>, i: nat) {
    i < |events| && events[i].Notice? && events[i].success && RunTopup(t0, events[..i]).status == TopupPending
  }

  /** Whatever notices, job steps, cancellations and refunds come in whatever order: the provider is called at most
      once and only after one notice paid the order, whose payment id it keeps; the finished job leaves it COMPLETED or
      MANUAL_INTERVENTION exactly unless the database refused its last write. */
  lemma {:induction false} TopupRun(t0: Topup, events: seq<TopupEvent>)
    requires Fresh(t0)
    ensures var t := RunTopup(t0, events);
            && TopupOk(t)
            && t.calls <= 1
            && (t.job.Finished? ==> (t.job.saved <==> t.status == TopupCompleted || t.status == ManualIntervention))
            && (t.status != TopupPending && t.status != TopupFailed ==>
                  exists i: nat :: PaidBy(t0, events, i) && t.paymentId == events[i].paymentId)
            && (0 < t.calls ==> t.status != TopupPending && t.status != TopupFailed)
  {
    if |events| > 0 {
      var last := |events| - 1;
      TopupRun(t0, events[..last]);
      var before := RunTopup(t0, events[..last]);
      EventKeeps(before, events[last]);
      if before.status != TopupPending && before.status != TopupFailed {
        var i: nat :| PaidBy(t0, events[..last], i) && before.paymentId == events[..last][i].paymentId;
        assert events[..last][..i] == events[..i];
        assert PaidBy(t0, events, i);
      } else if PaidBy(t0, events, last) {
        assert RunTopup(t0, events).paymentId == events[last].paymentId;
      }
    }
  }

  /** A job whose outcome was saved is the end: no notice, job step, cancellation or refund changes the order again.
      In particular refundOrder refuses a MANUAL_INTERVENTION order, although the money was collected. */
  lemma {:induction false} FinishedIsFinal(t: Topup, events: seq<TopupEvent>)
    requires TopupOk(t) && t.job == Finished(true)
    ensures RunTopup(t, events) == t
  {
    if |events| > 0 {
      FinishedIsFinal(t, events[..|events| - 1]);
    }
  }

  /** A topup accepts a refund within its price exactly while its job is under way, or after its last write was lost. */
  lemma RefundIff(t: Topup, amount: int)
    requires TopupOk(t)
    ensures RefundAccepted(t, amount)
       <==> 0 <= amount <= t.price - t.refunded && t.job != NoJob && t.job != Finished(true)
    ensures RefundAccepted(t, amount) ==>
              0 <= amount && OnRefund(t, amount) == t.(status := TopupRefunded, refunded := t.refunded + amount)
    ensures !RefundAccepted(t, amount) ==> OnRefund(t, amount) == t
  {
  }

  /** A refund that gave money back while the job was under way. */
  predicate RefundedDuringJob(t0: Topup, events: seq<TopupEvent>, i: nat) {
    && i < |events| && events[i].RefundTopup?
    && var t := RunTopup(t0, events[..i]);
       0 < events[i].amount <= t.price - t.refunded && (t.job == Scheduled || t.job == Calling)
  }

  lemma RefundedBefore(t0: Topup, events: seq<TopupEvent>, i: nat)
    requires 0 < |events| && i < |events| - 1
    ensures RefundedDuringJob(t0, events, i) <==> RefundedDuringJob(t0, events[..|events| - 1], i)
  {
    assert events[..|events| - 1][..i] == events[..i];
  }

  /** The race between refund and job, exactly: unless the job's last write was lost, a topup has money given back if
      and only if a refund of a positive amount that fits came in while its job was under way. For a COMPLETED topup,
      whose job always ended well, that is when the provider carried it out and its money is gone all the same. */
  lemma {:induction false} RefundRaceIff(t0: Topup, events: seq<TopupEvent>)
    requires Fresh(t0)
    ensures var t := RunTopup(t0, events);
            && (t.status == TopupCompleted ==> t.job == Finished(true))
            && (t.job != Finished(false) ==> (0 < t.refunded <==> exists i: nat :: RefundedDuringJob(t0, events, i)))
  {
    TopupRun(t0, events);
    if |events| > 0 {
      var last := |events| - 1;
      var before := RunTopup(t0, events[..last]);
      TopupRun(t0, events[..last]);
      RefundRaceIff(t0, events[..last]);
      RefundedNext(before, events[last]);
      assert RefundedDuringJob(t0, events, last)
        <==> before.refunded < RunTopup(t0, events).refunded && before.job != Finished(false);
      hide TopupOk, OnEvent, RunTopup, RefundedDuringJob;
      forall i: nat | i < last ensures RefundedDuringJob(t0, events, i) <==> RefundedDuringJob(t0, events[..last], i) {
        RefundedBefore(t0, events, i);
      }
      NotBeyond(t0, events);
      NotBeyond(t0, events[..last]);
    }
  }

  lemma NotBeyond(t0: Topup, events: seq<TopupEvent>)
    ensures forall i: nat :: RefundedDuringJob(t0, events, i) ==> i < |events|
  {
  }

  lemma RefundedNext(t: Topup, e: TopupEvent)
    requires TopupOk(t)
    ensures var u := OnEvent(t, e);
            && t.refunded <= u.refunded
            && (t.job == Finished(false) ==> u.job == Finished(false))
            && (t.refunded < u.refunded <==> e.RefundTopup? && 0 < e.amount <= t.price - t.refunded
                                             && t.job != NoJob && t.job != Finished(true))
  {
  }

  /** A refund made while the provider is being called is overwritten by the completion: the order ends COMPLETED
      with its whole price given back. */
  lemma RefundedYetCompleted(t: Topup, esimKnown: bool)
    requires Fresh(t) && 0 < t.price && t.provider == Some(Airalo) && t.package != "" && t.iccid != ""
    ensures var events := [Notice(true, None), BeginJob(esimKnown, true), RefundTopup(t.price),
                           EndJob(true, true, true)];
            var done := RunTopup(t, events);
            done.status == TopupCompleted && done.refunded == t.price && done.calls == 1
  {
    var e0, e1, e2, e3 := Notice(true, None), BeginJob(esimKnown, true), RefundTopup(t.price), EndJob(true, true, true);
    RunNext(t, [], e0);
    RunNext(t, [e0], e1);
    RunNext(t, [e0, e1], e2);
    RunNext(t, [e0, e1, e2], e3);
    assert [e0] == [] + [e0] && [e0, e1] == [e0] + [e1] && [e0, e1, e2] == [e0, e1] + [e2];
    assert [e0, e1, e2, e3] == [e0, e1, e2] + [e3];
  }

  lemma RunNext(t: Topup, events: seq<TopupEvent>, e: TopupEvent)
    ensures RunTopup(t, events + [e]) == OnEvent(RunTopup(t, events), e)
  {
    assert (events + [e])[..|events|] == events;
  }

  // ----- which event does what -----

  /** A notice decides a pending topup, by its success, and no other. */
  lemma NoticeIff(t: Topup, success: bool, paymentId: Option<string>)
    ensures var u := OnEvent(t, Notice(success, paymentId));
            && (t.status == TopupPending && success ==>
                  u == t.(status := TopupPaid, paymentId := paymentId, job := Scheduled))
            && (t.status == TopupPending && !success ==> u == t.(status := TopupFailed))
            && (t.status != TopupPending ==> u == t)
  {
  }

  /** Cancellation and the cron job fail a pending topup and leave any other alone. */
  lemma FailPendingIff(t: Topup)
    ensures OnEvent(t, FailPending).status == TopupFailed <==> t.status == TopupPending || t.status == TopupFailed
    ensures t.status != TopupPending ==> OnEvent(t, FailPending) == t
  {
  }

  /** What the provider call needs: a provider the shop knows, a package, an ICCID, and for Gadget Korea the eSIM's
      record. */
  predicate Callable(t: Topup, esimKnown: bool) {
    && t.package != "" && t.iccid != ""
    && (|| t.provider == Some(Airalo) || t.provider == Some(EsimAccess)
        || (t.provider == Some(GadgetKorea) && esimKnown))
  }

  /** The provider is called if and only if the job was scheduled on an order that is not finished and has all the call
      needs; without that the order is marked for manual intervention if the write is not lost. */
  lemma CalledIff(t: Topup, esimKnown: bool, saved: bool)
    requires TopupOk(t)
    ensures var u := OnEvent(t, BeginJob(esimKnown, saved));
            && (u.calls == t.calls + 1 <==> t.job == Scheduled && Callable(t, esimKnown))
            && (u.calls == t.calls + 1 ==> u == t.(job := Calling, calls := 1))
            && (t.job == Scheduled && !Callable(t, esimKnown) ==>
                  u == t.(status := if saved then ManualIntervention else t.status, job := Finished(saved)))
            && (t.job != Scheduled ==> u == t)
  {
  }

  /** A provider call that was accepted and whose completion reached the database. */
  predicate Completes(t: Topup, e: TopupEvent) {
    t.job == Calling && e.EndJob? && e.accepted && e.completionSaved
  }

  /** A topup becomes COMPLETED if and only if the event ends its call that way; any other end of the call marks it for
      manual intervention if that write is not lost, and changes no status if it is. */
  lemma CompletesIff(t: Topup, e: TopupEvent)
    requires TopupOk(t)
    ensures OnEvent(t, e).status == TopupCompleted <==> t.status == TopupCompleted || Completes(t, e)
    ensures t.job == Calling && e.EndJob? && !Completes(t, e) ==>
              OnEvent(t, e) == t.(status := if e.manualSaved then ManualIntervention else t.status,
                                  job := Finished(e.manualSaved))
  {
  }

  /** The i-th event ended a provider call well. */
  predicate CompletedBy(t0: Topup, events: seq<TopupEvent>, i: nat) {
    i < |events| && Completes(RunTopup(t0, events[..i]), events[i])
  }

  /** The i-th event ended the job without success, and the database was told. */
  predicate GaveUpBy(t0: Topup, events: seq<TopupEvent>, i: nat) {
    i < |events| && GivesUp(RunTopup(t0, events[..i]), events[i])
  }

  lemma CompletedBefore(t0: Topup, events: seq<TopupEvent>, i: nat)
    requires 0 < |events| && i < |events| - 1
    ensures CompletedBy(t0, events, i) <==> CompletedBy(t0, events[..|events| - 1], i)
    ensures GaveUpBy(t0, events, i) <==> GaveUpBy(t0, events[..|events| - 1], i)
  {
    assert events[..|events| - 1][..i] == events[..i];
  }

  /** Over every run: a topup is COMPLETED if and only if a provider call was accepted and its completion saved, and
      marked for manual intervention if and only if its job could not call or its call failed, and that was saved. */
  lemma {:induction false} OutcomeIff(t0: Topup, events: seq<TopupEvent>)
    requires Fresh(t0)
    ensures RunTopup(t0, events).status == TopupCompleted <==> exists i: nat :: CompletedBy(t0, events, i)
    ensures RunTopup(t0, events).status == ManualIntervention <==> exists i: nat :: GaveUpBy(t0, events, i)
  {
    if |events| > 0 {
      var last := |events| - 1;
      var front := events[..last];
      var before := RunTopup(t0, front);
      TopupRun(t0, front);
      OutcomeIff(t0, front);
      OutcomeNext(before, events[last]);
      assert CompletedBy(t0, events, last) <==> Completes(before, events[last]);
      assert GaveUpBy(t0, events, last) <==> GivesUp(before, events[last]);
      InRange(t0, events);
      InRange(t0, front);
      hide TopupOk, OnEvent, CompletedBy, GaveUpBy, Completes, GivesUp;
      forall i: nat | i < last
        ensures CompletedBy(t0, events, i) <==> CompletedBy(t0, front, i)
        ensures GaveUpBy(t0, events, i) <==> GaveUpBy(t0, front, i)
      {
        CompletedBefore(t0, events, i);
      }
    } else {
      InRange(t0, events);
    }
  }

  predicate GivesUp(t: Topup, e: TopupEvent) {
    || (t.job == Scheduled && e.BeginJob? && e.saved && !Callable(t, e.esimKnown))
    || (t.job == Calling && e.EndJob? && !(e.accepted && e.completionSaved) && e.manualSaved)
  }

  lemma OutcomeNext(t: Topup, e: TopupEvent)
    requires TopupOk(t)
    ensures OnEvent(t, e).status == TopupCompleted <==> t.status == TopupCompleted || Completes(t, e)
    ensures OnEvent(t, e).status == ManualIntervention <==> t.status == ManualIntervention || GivesUp(t, e)
  {
  }

  lemma InRange(t0: Topup, events: seq<TopupEvent>)
    ensures forall i: nat :: CompletedBy(t0, events, i) || GaveUpBy(t0, events, i) ==> i < |events|
  {
  }
}
