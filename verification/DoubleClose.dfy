/** A request whose response body is closed twice, action by action. */
module DoubleClose {
  import opened Options
  import opened GatewayWorld
  import opened Failover

  const ONLY_ACCOUNT := Account(1, 0, false)

  /** An unlimited gateway with one account, whose answer 200 is aggregated. */
  const AGGREGATING :=
    Gateway(
      World(_ => true, _ => true, _ => BodyReady, _ => Chosen(ONLY_ACCOUNT), _ => true, _ => Granted("a"), _ => true, _ => true,
            _ => true, _ => (true, 200), _ => false, _ => Refresh("", false, false), _ => false, _ => true),
      1, false, 0, 0, 0, 1)

  /** One more action of that request. */
  ghost predicate Leads(l: Ledger, a: Action, next: Ledger) {
    forall log :: Post(AGGREGATING, log, l, a) == next
  }

  lemma Continue(log: Log, l: Ledger, a: Action, next: Ledger)
    requires LedgerOf(AGGREGATING, log) == l && Leads(l, a, next)
    ensures LedgerOf(AGGREGATING, log + [a]) == next
  {
    hide Post;
    assert (log + [a])[..|log|] == log;
    assert Post(AGGREGATING, log, l, a) == next;
  }

  const SLOTS: set<Slot> := {GatewaySlot, KeySlot, AccountSlot(0)}

  const ADMITTED := EMPTY_LEDGER.(held := {GatewaySlot, KeySlot}, used := {GatewaySlot, KeySlot})
  const CHOSEN := ADMITTED.(account := Some(ONLY_ACCOUNT))
  const RESERVED := CHOSEN.(held := SLOTS, used := SLOTS, ready := true)
  const ANSWERED := RESERVED.(sends := [Send(0, 1)], blamed := {1}, last := Response(200, 0), open := {0}, seen := {0}, owed := {0})
  const SERVED := ANSWERED.(answers := 1, owed := {}, aggregated := {0})
  const CLOSED := SERVED.(reclosed := {0}, open := {})
  const FINISHED := CLOSED.(held := {})

  lemma Admission() returns (log: Log)
    ensures log == [Acquired(GatewaySlot, 0, 0), Acquired(KeySlot, 1, 0)] && LedgerOf(AGGREGATING, log) == ADMITTED
  {
    var first := EMPTY_LEDGER.(held := {GatewaySlot}, used := {GatewaySlot});
    assert {} + {GatewaySlot} == {GatewaySlot} && {GatewaySlot} + {KeySlot} == {GatewaySlot, KeySlot};
    assert Leads(EMPTY_LEDGER, Acquired(GatewaySlot, 0, 0), first);
    assert Leads(first, Acquired(KeySlot, 1, 0), ADMITTED);
    Continue([], EMPTY_LEDGER, Acquired(GatewaySlot, 0, 0), first);
    log := [] + [Acquired(GatewaySlot, 0, 0)];
    Continue(log, first, Acquired(KeySlot, 1, 0), ADMITTED);
    log := log + [Acquired(KeySlot, 1, 0)];
  }

  lemma ChoiceLeads()
    ensures Leads(ADMITTED, Selected(ONLY_ACCOUNT), CHOSEN)
  {
  }

  lemma SlotLeads()
    ensures Leads(CHOSEN, Acquired(AccountSlot(0), 1, 0), RESERVED.(ready := false))
  {
    hide Booked;
    assert {GatewaySlot, KeySlot} + {AccountSlot(0)} == SLOTS;
  }

  lemma UsageLeads()
    ensures Leads(RESERVED.(ready := false), UsageRecorded(true), RESERVED)
  {
  }

  lemma Reservation(log0: Log) returns (log: Log)
    requires LedgerOf(AGGREGATING, log0) == ADMITTED
    ensures log == log0 + [Selected(ONLY_ACCOUNT)] + [Acquired(AccountSlot(0), 1, 0)] + [UsageRecorded(true)]
    ensures LedgerOf(AGGREGATING, log) == RESERVED
  {
    hide LedgerOf, Leads;
    var reserved := RESERVED.(ready := false);
    ChoiceLeads();
    SlotLeads();
    UsageLeads();
    Continue(log0, ADMITTED, Selected(ONLY_ACCOUNT), CHOSEN);
    log := log0 + [Selected(ONLY_ACCOUNT)];
    Continue(log, CHOSEN, Acquired(AccountSlot(0), 1, 0), reserved);
    log := log + [Acquired(AccountSlot(0), 1, 0)];
    Continue(log, reserved, UsageRecorded(true), RESERVED);
    log := log + [UsageRecorded(true)];
  }

  lemma SendLeads()
    ensures Leads(RESERVED, Sent(0, 1, Response(200, 0)), ANSWERED)
  {
    hide Booked;
    assert [] + [Send(0, 1)] == [Send(0, 1)] && {} + {0} == {0} && {} + {1} == {1};
  }

  lemma ServeLeads()
    ensures Leads(ANSWERED, Served(0, true), SERVED)
  {
    hide Booked;
    assert {0} - {0} == {} && {} + {0} == {0};
  }

  lemma WriterCloseLeads()
    ensures Leads(SERVED, ClosedByWriter(0), SERVED.(reclosed := {0}))
  {
    hide Booked;
    assert {} + {0} == {0};
  }

  lemma CloseLeads()
    ensures Leads(SERVED.(reclosed := {0}), Closed(0), CLOSED)
  {
    hide Booked;
    assert {0} - {0} == {};
  }

  lemma Answer(log0: Log) returns (log: Log)
    requires LedgerOf(AGGREGATING, log0) == RESERVED
    ensures log == log0 + [Sent(0, 1, Response(200, 0))] + [Served(0, true)]
    ensures LedgerOf(AGGREGATING, log) == SERVED
  {
    hide LedgerOf, Leads;
    SendLeads();
    ServeLeads();
    Continue(log0, RESERVED, Sent(0, 1, Response(200, 0)), ANSWERED);
    log := log0 + [Sent(0, 1, Response(200, 0))];
    Continue(log, ANSWERED, Served(0, true), SERVED);
    log := log + [Served(0, true)];
  }

  lemma TwoCloses(log0: Log) returns (log: Log)
    requires LedgerOf(AGGREGATING, log0) == SERVED
    ensures log == log0 + [ClosedByWriter(0)] + [Closed(0)] && LedgerOf(AGGREGATING, log) == CLOSED
  {
    hide LedgerOf, Leads;
    var reclosed := SERVED.(reclosed := {0});
    WriterCloseLeads();
    CloseLeads();
    Continue(log0, SERVED, ClosedByWriter(0), reclosed);
    log := log0 + [ClosedByWriter(0)];
    Continue(log, reclosed, Closed(0), CLOSED);
    log := log + [Closed(0)];
  }

  lemma Releases(log0: Log) returns (log: Log)
    requires LedgerOf(AGGREGATING, log0) == CLOSED
    ensures log == log0 + [Released(AccountSlot(0))] + [Released(KeySlot)] + [Released(GatewaySlot)]
    ensures LedgerOf(AGGREGATING, log) == FINISHED
  {
    hide LedgerOf;
    var two, one := CLOSED.(held := {GatewaySlot, KeySlot}), CLOSED.(held := {GatewaySlot});
    assert SLOTS - {AccountSlot(0)} == {GatewaySlot, KeySlot} && {GatewaySlot, KeySlot} - {KeySlot} == {GatewaySlot};
    assert {GatewaySlot} - {GatewaySlot} == {};
    assert Leads(CLOSED, Released(AccountSlot(0)), two);
    assert Leads(two, Released(KeySlot), one);
    assert Leads(one, Released(GatewaySlot), FINISHED);
    hide Leads;
    Continue(log0, CLOSED, Released(AccountSlot(0)), two);
    log := log0 + [Released(AccountSlot(0))];
    Continue(log, two, Released(KeySlot), one);
    log := log + [Released(KeySlot)];
    Continue(log, one, Released(GatewaySlot), FINISHED);
    log := log + [Released(GatewaySlot)];
  }

  /** A complete request within the protocol whose one response body is closed twice. */
  lemma BodyClosedTwice() returns (log: Log)
    ensures Accounted(AGGREGATING, log, 1, 0, false) && Served(0, true) in log
    ensures Closes(log, 0) == 1 && WriterCloses(log, 0) == 1
  {
    hide LedgerOf, Accounted, Closes, WriterCloses, Receipts;
    log := Admission();
    log := Reservation(log);
    log := Answer(log);
    assert Sent(0, 1, Response(200, 0)) in log && Served(0, true) in log;
    log := TwoCloses(log);
    log := Releases(log);
    FinishedIsAccounted(log);
    ReceivedOnce(log);
    BodiesClosedOnce(AGGREGATING, log, 1, 0, false, 0);
  }

  lemma FinishedIsAccounted(log: Log)
    requires LedgerOf(AGGREGATING, log) == FINISHED
    ensures Accounted(AGGREGATING, log, 1, 0, false)
  {
    hide LedgerOf;
  }

  lemma ReceivedOnce(log: Log)
    requires LedgerOf(AGGREGATING, log) == FINISHED
    ensures Receipts(log, 0) == 1
  {
    LedgerCountsBodies(AGGREGATING, log, 0);
  }
}
