/** What finished logs say, read off the log and the answers of the outside alone. */
module GatewayLogs {
  import opened Options
  import opened GatewayWorld
  import opened GatewayScript

  // ---------- Every action is the due one ----------

  lemma AstrayStays(g: Gateway, log: Log, a: Action)
    ensures SpotOf(g, log).Astray? || SpotOf(g, log).AtEnd? ==> SpotOf(g, log + [a]).Astray?
  {
    hide SpotOf;
    SpotSnoc(g, log, a);
  }

  lemma {:induction false} OnTrack(g: Gateway, log: Log, i: nat)
    requires SpotOf(g, log) == AtEnd && i <= |log|
    ensures !SpotOf(g, log[..i]).Astray? && (SpotOf(g, log[..i]).AtEnd? <==> i == |log|)
    decreases |log| - i
  {
    hide SpotOf;
    if i == |log| {
      assert log[..i] == log;
    } else {
      OnTrack(g, log, i + 1);
      assert log[..i + 1] == log[..i] + [log[i]];
      AstrayStays(g, log[..i], log[i]);
    }
  }

  /** Until the end, the next action of a finished log is the one that is due. */
  lemma ActionIsDue(g: Gateway, log: Log, i: nat)
    requires SpotOf(g, log) == AtEnd && i <= |log|
    ensures !SpotOf(g, log[..i]).AtEnd? ==>
              && i < |log| && Due(g, log[..i], SpotOf(g, log[..i])) == Some(log[i])
              && SpotOf(g, log[..i + 1]) == After(g, log[..i], SpotOf(g, log[..i]), log[i])
  {
    hide SpotOf, Due, After;
    OnTrack(g, log, i);
    if i < |log| {
      OnTrack(g, log, i + 1);
      assert log[..i + 1] == log[..i] + [log[i]];
      SpotSnoc(g, log[..i], log[i]);
    }
  }

  lemma {:induction false} SamePrefix(g: Gateway, a: Log, b: Log, i: nat)
    requires SpotOf(g, a) == AtEnd && SpotOf(g, b) == AtEnd && i <= |a| && i <= |b|
    ensures a[..i] == b[..i]
  {
    hide SpotOf, Due, After;
    if i > 0 {
      SamePrefix(g, a, b, i - 1);
      OnTrack(g, a, i - 1);
      ActionIsDue(g, a, i - 1);
      ActionIsDue(g, b, i - 1);
      assert a[..i] == a[..i - 1] + [a[i - 1]] && b[..i] == b[..i - 1] + [b[i - 1]];
    }
  }

  /** The outside fixes the whole log: there is only one finished log. */
  lemma OnlyOneLog(g: Gateway, a: Log, b: Log)
    requires SpotOf(g, a) == AtEnd && SpotOf(g, b) == AtEnd
    ensures a == b
  {
    hide SpotOf;
    var n := if |a| <= |b| then |a| else |b|;
    SamePrefix(g, a, b, n);
    OnTrack(g, a, n);
    OnTrack(g, b, n);
    assert a[..|a|] == a && b[..|b|] == b;
  }

  // ---------- What a spot remembers ----------

  function VarsAt(s: Spot): Option<Vars> {
    match s
    case AtChoice(v) => Some(v)
    case AtMiss(v, _) => Some(v)
    case AtPick(v, _) => Some(v)
    case AtAdmission(v, _) => Some(v)
    case AtRecord(v, _) => Some(v)
    case AtSend(v, _, _) => Some(v)
    case AtCheck(v, _, _) => Some(v)
    case AtRefresh(v, _, _) => Some(v)
    case AtReclose(v, _, _) => Some(v)
    case AtRuling(v, _, _) => Some(v)
    case AtDelivery(v, _) => Some(v)
    case AtClose(v, _, _) => Some(v)
    case AtRelease(v) => Some(v)
    case AtHandover(v, _, _) => Some(v)
    case AtFailure(v, _) => Some(v)
    case AtReturn(v, _) => Some(v)
    case _ => None
  }

  function AccountAt(s: Spot): Option<Account> {
    match s
    case AtPick(_, account) => Some(account)
    case AtAdmission(_, account) => Some(account)
    case AtRecord(_, account) => Some(account)
    case AtSend(_, account, _) => Some(account)
    case AtCheck(_, account, _) => Some(account)
    case AtRefresh(_, account, _) => Some(account)
    case AtReclose(_, account, _) => Some(account)
    case AtRuling(_, account, _) => Some(account)
    case AtHandover(_, account, _) => Some(account)
    case AtFailure(_, account) => Some(account)
    case _ => None
  }

  /** Up to the send of an attempt. */
  predicate Early(s: Spot) {
    s.AtGateway? || s.AtKey? || s.AtBody? || s.AtChoice? || s.AtMiss? || s.AtPick? || s.AtAdmission? || s.AtRecord?
  }

  /** The account selected last. */
  function LastSelected(log: Log): Option<Account> {
    if log == [] then None
    else if log[|log| - 1].Selected? then Some(log[|log| - 1].account)
    else LastSelected(log[..|log| - 1])
  }

  lemma LastSelectedSnoc(log: Log, a: Action)
    ensures LastSelected(log + [a]) == if a.Selected? then Some(a.account) else LastSelected(log)
  {
    assert (log + [a])[..|log|] == log;
  }

  /** Accounts only change by selection. */
  lemma AccountMoves(g: Gateway, log: Log, s: Spot, a: Action)
    requires Due(g, log, s) == Some(a)
    ensures var t := After(g, log, s, a);
            AccountAt(t).Some? ==> if a.Selected? then AccountAt(t) == Some(a.account) else AccountAt(t) == AccountAt(s)
  {
    hide Due, After, Early, VarsAt, AccountAt;
    if Early(s) {
      AccountMovesEarly(g, log, s, a);
    } else {
      AccountMovesLate(g, log, s, a);
    }
  }

  lemma AccountMovesEarly(g: Gateway, log: Log, s: Spot, a: Action)
    requires Due(g, log, s) == Some(a)
    requires Early(s)
    ensures var t := After(g, log, s, a);
            AccountAt(t).Some? ==> if a.Selected? then AccountAt(t) == Some(a.account) else AccountAt(t) == AccountAt(s)
  {
    hide SelectionStatus, AdmitStatus, EffectiveLimit, RetryableStatus, AuthorizationFailure, RefreshWorks, AnswerOf, AppendUnique;
  }

  lemma AccountMovesLate(g: Gateway, log: Log, s: Spot, a: Action)
    requires Due(g, log, s) == Some(a)
    requires !Early(s)
    ensures var t := After(g, log, s, a);
            AccountAt(t).Some? ==> if a.Selected? then AccountAt(t) == Some(a.account) else AccountAt(t) == AccountAt(s)
  {
    hide SelectionStatus, AdmitStatus, EffectiveLimit, RetryableStatus, AuthorizationFailure, RefreshWorks, AnswerOf, AppendUnique;
  }

  lemma {:induction false} AccountRemembered(g: Gateway, log: Log)
    ensures AccountAt(SpotOf(g, log)).Some? ==> LastSelected(log) == AccountAt(SpotOf(g, log))
  {
    hide Due, After, AccountAt;
    if log == [] {
      assert AccountAt(AtGateway).None? by { NothingRemembered(); }
    } else {
      var init, a := log[..|log| - 1], log[|log| - 1];
      AccountRemembered(g, init);
      assert AccountAt(Astray).None? by { NothingRemembered(); }
      if Due(g, init, SpotOf(g, init)) == Some(a) {
        AccountMoves(g, init, SpotOf(g, init), a);
      }
    }
  }

  lemma NothingRemembered()
    ensures AccountAt(AtGateway).None? && AccountAt(Astray).None? && VarsAt(AtGateway).None? && VarsAt(Astray).None?
  {
  }

  // ---------- Sends of the attempts ----------

  /** Nothing was sent in the attempt yet. */
  predicate Unsent(s: Spot) {
    s.AtChoice? || s.AtMiss? || s.AtPick? || s.AtAdmission? || s.AtRecord? || (s.AtSend? && !s.again)
  }

  /** The attempt's one answer may still be refreshed away, or was. */
  predicate SentOnce(s: Spot) {
    s.AtCheck? || s.AtRefresh? || s.AtReclose? || (s.AtSend? && s.again)
  }

  ghost predicate SentIn(log: Log, attempt: nat) {
    exists i :: 0 <= i < |log| && log[i].Sent? && log[i].attempt == attempt
  }

  ghost predicate SendsBelow(log: Log, attempt: nat) {
    forall i :: 0 <= i < |log| && log[i].Sent? ==> log[i].attempt < attempt
  }

  lemma SendMoves(g: Gateway, log: Log, s: Spot, a: Action)
    requires Due(g, log, s) == Some(a)
    ensures a.Sent? ==> s.AtSend? && a.attempt == s.v.attempt && a.sender == s.account.id
    ensures var t := After(g, log, s, a);
            VarsAt(t).Some? ==>
              var v, w := VarsAt(s), VarsAt(t).value;
              if v.None? then w.attempt == 0 && Unsent(t) && s.AtKey?
              else if w.attempt == v.value.attempt then
                (Unsent(t) ==> Unsent(s) && !a.Sent?) && (SentOnce(t) ==> SentOnce(s) || a.Sent?) && (s.AtSend? && s.again ==> !SentOnce(t))
              else w.attempt == v.value.attempt + 1 && Unsent(t) && !a.Sent?
  {
    hide Due, After, Early, VarsAt, AccountAt;
    if Early(s) {
      SendMovesEarly(g, log, s, a);
    } else {
      SendMovesLate(g, log, s, a);
    }
  }

  lemma SendMovesEarly(g: Gateway, log: Log, s: Spot, a: Action)
    requires Due(g, log, s) == Some(a)
    requires Early(s)
    ensures a.Sent? ==> s.AtSend? && a.attempt == s.v.attempt && a.sender == s.account.id
    ensures var t := After(g, log, s, a);
            VarsAt(t).Some? ==>
              var v, w := VarsAt(s), VarsAt(t).value;
              if v.None? then w.attempt == 0 && Unsent(t) && s.AtKey?
              else if w.attempt == v.value.attempt then
                (Unsent(t) ==> Unsent(s) && !a.Sent?) && (SentOnce(t) ==> SentOnce(s) || a.Sent?) && (s.AtSend? && s.again ==> !SentOnce(t))
              else w.attempt == v.value.attempt + 1 && Unsent(t) && !a.Sent?
  {
    hide SelectionStatus, AdmitStatus, EffectiveLimit, RetryableStatus, AuthorizationFailure, RefreshWorks, AnswerOf, AppendUnique;
  }

  lemma SendMovesLate(g: Gateway, log: Log, s: Spot, a: Action)
    requires Due(g, log, s) == Some(a)
    requires !Early(s)
    ensures a.Sent? ==> s.AtSend? && a.attempt == s.v.attempt && a.sender == s.account.id
    ensures var t := After(g, log, s, a);
            VarsAt(t).Some? ==>
              var v, w := VarsAt(s), VarsAt(t).value;
              if v.None? then w.attempt == 0 && Unsent(t) && s.AtKey?
              else if w.attempt == v.value.attempt then
                (Unsent(t) ==> Unsent(s) && !a.Sent?) && (SentOnce(t) ==> SentOnce(s) || a.Sent?) && (s.AtSend? && s.again ==> !SentOnce(t))
              else w.attempt == v.value.attempt + 1 && Unsent(t) && !a.Sent?
  {
    hide SelectionStatus, AdmitStatus, EffectiveLimit, RetryableStatus, AuthorizationFailure, RefreshWorks, AnswerOf, AppendUnique;
  }

  ghost predicate SendsRemembered(log: Log, s: Spot) {
    VarsAt(s).Some? ==>
      var k := VarsAt(s).value.attempt;
      && (Unsent(s) ==> SendsBelow(log, k)) && SendsBelow(log, k + 1)
      && (SentOnce(s) ==> SentIn(log, k))
  }

  lemma SendsBelowSnoc(log: Log, a: Action, k: nat)
    ensures SendsBelow(log, k) && (a.Sent? ==> a.attempt < k) ==> SendsBelow(log + [a], k)
    ensures SentIn(log, k) || (a.Sent? && a.attempt == k) ==> SentIn(log + [a], k)
  {
    if SentIn(log, k) {
      var i :| 0 <= i < |log| && log[i].Sent? && log[i].attempt == k;
      assert (log + [a])[i].Sent?;
    } else if a.Sent? && a.attempt == k {
      assert (log + [a])[|log|].Sent?;
    }
  }

  lemma SendsStep(g: Gateway, log: Log, s: Spot, a: Action)
    requires Due(g, log, s) == Some(a) && SendsRemembered(log, s) && (s.AtKey? ==> SendsBelow(log, 0))
    ensures SendsRemembered(log + [a], After(g, log, s, a))
  {
    hide Due, After, SendsBelow, SentIn, Unsent, SentOnce;
    var t := After(g, log, s, a);
    SendMoves(g, log, s, a);
    if VarsAt(t).Some? {
      var k := VarsAt(t).value.attempt;
      SendsBelowSnoc(log, a, k);
      SendsBelowSnoc(log, a, k + 1);
      BelowMore(log, k);
      assert a.Sent? ==> VarsAt(s) == Some(s.v) by { SenderHasVars(s); }
      assert !(Unsent(t) && SentOnce(t)) by { UnsentOrSent(t); }
    }
  }

  lemma UnsentOrSent(s: Spot)
    ensures !(Unsent(s) && SentOnce(s))
  {
  }

  lemma SenderHasVars(s: Spot)
    ensures s.AtSend? ==> VarsAt(s) == Some(s.v)
  {
  }

  lemma BelowMore(log: Log, k: nat)
    ensures SendsBelow(log, k) ==> SendsBelow(log, k + 1)
  {
  }

  /** Before the key's slot there is only the gateway's. */
  lemma OneActionAtKey(g: Gateway, log: Log)
    requires SpotOf(g, log).AtKey?
    ensures |log| == 1 && log[0].Acquired?
  {
    hide Move;
    var init, a := log[..|log| - 1], log[|log| - 1];
    FirstOnly(g, init, SpotOf(g, init), a);
    GatewayOnlyFirst(g, init);
  }

  lemma GatewayOnlyFirst(g: Gateway, log: Log)
    ensures SpotOf(g, log).AtGateway? <==> log == []
  {
    hide Move;
    if log != [] {
      var init, a := log[..|log| - 1], log[|log| - 1];
      NeverBack(g, init, SpotOf(g, init), a);
    }
  }

  lemma FirstOnly(g: Gateway, log: Log, s: Spot, a: Action)
    requires Move(g, log, s, a).AtKey?
    ensures s.AtGateway? && a.Acquired?
  {
  }

  lemma NeverBack(g: Gateway, log: Log, s: Spot, a: Action)
    ensures !Move(g, log, s, a).AtGateway?
  {
  }

  lemma {:induction false} RunRemembersSends(g: Gateway, log: Log)
    ensures SendsRemembered(log, SpotOf(g, log))
  {
    hide Due, After, SendsRemembered;
    if log == [] {
      assert SendsRemembered([], AtGateway) && SendsRemembered(log, Astray) by { NothingSent(log); }
    } else {
      var init, a := log[..|log| - 1], log[|log| - 1];
      var s := SpotOf(g, init);
      RunRemembersSends(g, init);
      NothingSent(log);
      assert log == init + [a];
      if Due(g, init, s) == Some(a) {
        if s.AtKey? {
          OneActionAtKey(g, init);
        }
        SendsStep(g, init, s, a);
      }
    }
  }

  lemma NothingSent(log: Log)
    ensures SendsRemembered(log, AtGateway) && SendsRemembered(log, Astray)
  {
  }

  // ---------- Refusals, admissions and accounts of earlier attempts ----------

  ghost predicate SlotWasRefused(log: Log) {
    exists i :: 0 <= i < |log| && log[i].Refused? && log[i].slot.AccountSlot?
  }

  /** The id that came with the last answer of the budgets. */
  function LastAdmission(log: Log): string {
    if log == [] then ""
    else
      var a := log[|log| - 1];
      if a.Admitted? || a.AdmissionDenied? then a.id else LastAdmission(log[..|log| - 1])
  }

  /** The accounts selected so far, without the one that has no id. */
  function Tried(log: Log): set<int> {
    if log == [] then {}
    else Tried(log[..|log| - 1]) + (if log[|log| - 1].Selected? && log[|log| - 1].account.id != 0 then {log[|log| - 1].account.id} else {})
  }

  /** The accounts selected before the last selection. */
  function TriedBefore(log: Log): set<int> {
    if log == [] then {} else if log[|log| - 1].Selected? then Tried(log[..|log| - 1]) else TriedBefore(log[..|log| - 1])
  }

  function Selections(log: Log): nat {
    if log == [] then 0 else Selections(log[..|log| - 1]) + if log[|log| - 1].Selected? then 1 else 0
  }

  function Ids(failed: seq<int>): set<int> {
    set a | a in failed && a != 0
  }

  lemma HistorySnoc(log: Log, a: Action)
    ensures SlotWasRefused(log + [a]) <==> SlotWasRefused(log) || (a.Refused? && a.slot.AccountSlot?)
    ensures LastAdmission(log + [a]) == if a.Admitted? || a.AdmissionDenied? then a.id else LastAdmission(log)
    ensures Tried(log + [a]) == Tried(log) + if a.Selected? && a.account.id != 0 then {a.account.id} else {}
    ensures TriedBefore(log + [a]) == if a.Selected? then Tried(log) else TriedBefore(log)
    ensures Selections(log + [a]) == Selections(log) + if a.Selected? then 1 else 0
  {
    var more := log + [a];
    assert more[..|log|] == log && more[|log|] == a;
    if SlotWasRefused(log) {
      var i :| 0 <= i < |log| && log[i].Refused? && log[i].slot.AccountSlot?;
      assert more[i].Refused? && more[i].slot.AccountSlot?;
    }
    if a.Refused? && a.slot.AccountSlot? {
      assert more[|log|].Refused?;
    }
  }

  /** How the variables of the attempts change. */
  lemma VarsMove(g: Gateway, log: Log, s: Spot, a: Action)
    requires Due(g, log, s) == Some(a)
    ensures var t := After(g, log, s, a);
            VarsAt(t).Some? ==>
              var w := VarsAt(t).value;
              if VarsAt(s).None? then w == Vars(0, [], None, "", false) && s.AtKey? && t.AtChoice? && a.Acquired?
              else
                var v := VarsAt(s).value;
                && (w.limited <==> v.limited || (a.Refused? && a.slot.AccountSlot?))
                && w.admission == (if a.Admitted? || a.AdmissionDenied? then a.id else v.admission)
  {
    hide Due, After, Early, VarsAt, AccountAt;
    if Early(s) {
      VarsMoveEarly(g, log, s, a);
    } else {
      VarsMoveLate(g, log, s, a);
    }
  }

  lemma VarsMoveEarly(g: Gateway, log: Log, s: Spot, a: Action)
    requires Due(g, log, s) == Some(a)
    requires Early(s)
    ensures var t := After(g, log, s, a);
            VarsAt(t).Some? ==>
              var w := VarsAt(t).value;
              if VarsAt(s).None? then w == Vars(0, [], None, "", false) && s.AtKey? && t.AtChoice? && a.Acquired?
              else
                var v := VarsAt(s).value;
                && (w.limited <==> v.limited || (a.Refused? && a.slot.AccountSlot?))
                && w.admission == (if a.Admitted? || a.AdmissionDenied? then a.id else v.admission)
  {
    hide SelectionStatus, AdmitStatus, EffectiveLimit, RetryableStatus, AuthorizationFailure, RefreshWorks, AnswerOf, AppendUnique;
  }

  lemma VarsMoveLate(g: Gateway, log: Log, s: Spot, a: Action)
    requires Due(g, log, s) == Some(a)
    requires !Early(s)
    ensures var t := After(g, log, s, a);
            VarsAt(t).Some? ==>
              var w := VarsAt(t).value;
              if VarsAt(s).None? then w == Vars(0, [], None, "", false) && s.AtKey? && t.AtChoice? && a.Acquired?
              else
                var v := VarsAt(s).value;
                && (w.limited <==> v.limited || (a.Refused? && a.slot.AccountSlot?))
                && w.admission == (if a.Admitted? || a.AdmissionDenied? then a.id else v.admission)
  {
    hide SelectionStatus, AdmitStatus, EffectiveLimit, RetryableStatus, AuthorizationFailure, RefreshWorks, AnswerOf, AppendUnique;
  }

  /** The failed list grows by the account of the attempt when the next attempt begins. */
  lemma FailedMove(g: Gateway, log: Log, s: Spot, a: Action)
    requires Due(g, log, s) == Some(a) && VarsAt(s).Some? && VarsAt(After(g, log, s, a)).Some?
    ensures var t := After(g, log, s, a);
            var v, w := VarsAt(s).value, VarsAt(t).value;
            if t.AtChoice? then AccountAt(s).Some? && !a.Selected? && w.attempt == v.attempt + 1 && w.failed == AppendUnique(v.failed, AccountAt(s).value.id)
            else w.failed == v.failed && w.attempt == v.attempt && (a.Selected? ==> s.AtChoice? && AccountAt(t) == Some(a.account)) &&
                 (s.AtChoice? ==> a.Selected? || t.AtMiss?) && (t.AtMiss? ==> !a.Selected? && (s.AtMiss? || s.AtChoice?)) &&
                 (s.AtMiss? ==> t.AtMiss?)
  {
    hide SelectionStatus, AdmitStatus, EffectiveLimit, RetryableStatus, AuthorizationFailure, RefreshWorks, AnswerOf, AppendUnique;
  }

  ghost predicate HistoryKept(log: Log, s: Spot) {
    VarsAt(s).Some? ==>
      var v := VarsAt(s).value;
      && (v.limited <==> SlotWasRefused(log)) && v.admission == LastAdmission(log)
      && Ids(v.failed) == (if s.AtChoice? || s.AtMiss? then Tried(log) else TriedBefore(log))
      && Selections(log) == v.attempt + if s.AtChoice? || s.AtMiss? then 0 else 1
  }

  lemma {:induction false} TriedIsBeforeAndLast(log: Log)
    ensures var last := LastSelected(log);
            Tried(log) == TriedBefore(log) + if last.Some? && last.value.id != 0 then {last.value.id} else {}
  {
    if log != [] {
      TriedIsBeforeAndLast(log[..|log| - 1]);
    }
  }

  lemma IdsAppend(failed: seq<int>, id: int)
    ensures Ids(AppendUnique(failed, id)) == Ids(failed) + if id != 0 then {id} else {}
  {
  }

  lemma HistoryStep(g: Gateway, log: Log, s: Spot, a: Action)
    requires Due(g, log, s) == Some(a) && HistoryKept(log, s)
    requires AccountAt(s).Some? ==> LastSelected(log) == AccountAt(s)
    requires s.AtKey? ==> !SlotWasRefused(log) && LastAdmission(log) == "" && Tried(log) == {} && Selections(log) == 0
    ensures HistoryKept(log + [a], After(g, log, s, a))
  {
    hide Due, After, SlotWasRefused, LastAdmission, Tried, TriedBefore, LastSelected, Selections, Ids, AppendUnique;
    var t := After(g, log, s, a);
    VarsMove(g, log, s, a);
    HistorySnoc(log, a);
    assert Ids([]) == {} by { NoIds(); }
    if VarsAt(t).Some? && VarsAt(s).Some? {
      FailedMove(g, log, s, a);
      TriedIsBeforeAndLast(log);
      if t.AtChoice? {
        IdsAppend(VarsAt(s).value.failed, AccountAt(s).value.id);
        assert !s.AtChoice? && !s.AtMiss? by { NoAccountYet(s); }
      }
    }
  }

  lemma NoIds()
    ensures Ids([]) == {}
  {
  }

  lemma NoAccountYet(s: Spot)
    ensures s.AtChoice? || s.AtMiss? ==> AccountAt(s).None?
  {
  }

  lemma AtKeyNothingHappened(g: Gateway, log: Log)
    requires SpotOf(g, log).AtKey?
    ensures !SlotWasRefused(log) && LastAdmission(log) == "" && Tried(log) == {} && Selections(log) == 0
  {
    hide Move;
    OneActionAtKey(g, log);
    hide SpotOf;
    assert log == [] + [log[0]];
    HistorySnoc([], log[0]);
    NothingHappened();
  }

  lemma NothingHappened()
    ensures !SlotWasRefused([]) && LastAdmission([]) == "" && Tried([]) == {} && Selections([]) == 0
  {
  }

  lemma {:induction false} RunKeepsHistory(g: Gateway, log: Log)
    ensures HistoryKept(log, SpotOf(g, log))
  {
    hide Due, After, HistoryKept, AccountAt;
    NothingKept(log);
    if log != [] {
      var init, a := log[..|log| - 1], log[|log| - 1];
      var s := SpotOf(g, init);
      RunKeepsHistory(g, init);
      AccountRemembered(g, init);
      assert log == init + [a];
      if Due(g, init, s) == Some(a) {
        if s.AtKey? {
          AtKeyNothingHappened(g, init);
        }
        HistoryStep(g, init, s, a);
      }
    }
  }

  lemma NothingKept(log: Log)
    ensures HistoryKept(log, AtGateway) && HistoryKept(log, Astray)
  {
  }

  // ---------- After a send ----------

  /** The first send of its attempt. */
  ghost predicate FirstSend(log: Log, i: nat) {
    i < |log| && log[i].Sent? && !SentIn(log[..i], log[i].attempt)
  }

  /** Where a send was made. */
  lemma SpotOfSend(g: Gateway, log: Log, i: nat)
    requires SpotOf(g, log) == AtEnd && i < |log| && log[i].Sent?
    ensures var s := SpotOf(g, log[..i]);
            && s.AtSend? && s.v.attempt == log[i].attempt && s.account.id == log[i].sender && (s.again <==> !FirstSend(log, i))
            && LastSelected(log[..i]) == Some(s.account)
            && SpotOf(g, log[..i + 1]) == AfterSend(g, s.v, s.account, s.again, log[i])
  {
    hide SpotOf, Due, AfterSend, LastSelected;
    OnTrack(g, log, i);
    ActionIsDue(g, log, i);
    var s := SpotOf(g, log[..i]);
    assert s.AtSend? && s.v.attempt == log[i].attempt && s.account.id == log[i].sender by { SendMoves(g, log[..i], s, log[i]); }
    RunRemembersSends(g, log[..i]);
    AccountRemembered(g, log[..i]);
    if !s.again {
      NotSentBelow(log[..i], s.v.attempt);
    }
  }

  lemma NotSentBelow(log: Log, k: nat)
    ensures SendsBelow(log, k) ==> !SentIn(log, k)
  {
  }

  predicate Retryable(status: int) {
    status == 401 || status == 403 || status == 429 || status >= 500
  }

  /**
   * The first answer of an attempt, if it is 401 or 403 and there is more than one attempt: the rules are read; if they
   * do not let it through the authorization is refreshed; and if that works the answer is closed and the account asked
   * again.
   */
  lemma RefreshIsTried(g: Gateway, log: Log, i: nat, status: int, body: nat)
    requires SpotOf(g, log) == AtEnd && FirstSend(log, i) && log[i].response == Response(status, body)
    requires (status == 401 || status == 403) && g.maxAttempts != 1
    ensures i + 1 < |log| && log[i + 1] == RulesRead(g.w.passThrough(log[..i + 1]))
    ensures log[i + 1] == RulesRead(false) ==>
              && i + 2 < |log| && LastSelected(log[..i]).Some?
              && var account, r := LastSelected(log[..i]).value, g.w.refresh(log[..i + 2]);
                 log[i + 2] == Refreshed(account.id > 0 && account.refreshable && r.retry && !r.failed && r.token != "")
    ensures log[i + 1] == RulesRead(false) && log[i + 2] == Refreshed(true) ==>
              && i + 4 < |log| && log[i + 3] == Closed(body)
              && if !g.w.buildRequest(log[..i + 4]) then log[i + 4] == RequestUnbuilt
                 else if !g.w.client(log[..i + 4]) then log[i + 4] == ClientMissing(log[i].attempt)
                 else
                   && log[i + 4].Sent? && log[i + 4].attempt == log[i].attempt && log[i + 4].sender == log[i].sender
                   && log[i + 4].response.Response? == g.w.send(log[..i + 4]).0
                   && (log[i + 4].response.Response? ==> log[i + 4].response.status == g.w.send(log[..i + 4]).1)
  {
    hide SpotOf, LastSelected, Due, After, SendAction, SentIn;
    SpotOfSend(g, log, i);
    var s := SpotOf(g, log[..i]);
    ActionIsDue(g, log, i + 1);
    CheckStep(g, log[..i + 1], s.v, s.account, body);
    if log[i + 1] == RulesRead(false) {
      ActionIsDue(g, log, i + 2);
      RefreshStep(g, log[..i + 2], s.v, s.account, body);
      if log[i + 2] == Refreshed(true) {
        ActionIsDue(g, log, i + 3);
        RecloseStep(g, log[..i + 3], s.v, s.account, body);
        ActionIsDue(g, log, i + 4);
        SecondSendStep(g, log[..i + 4], s.v, s.account);
      }
    }
  }

  lemma CheckStep(g: Gateway, log: Log, v: Vars, account: Account, body: nat)
    ensures Due(g, log, AtCheck(v, account, body)) == Some(RulesRead(g.w.passThrough(log)))
    ensures After(g, log, AtCheck(v, account, body), RulesRead(false)) == AtRefresh(v, account, body)
    ensures After(g, log, AtCheck(v, account, body), RulesRead(true)) == AtRuling(v, account, body)
  {
  }

  lemma RefreshStep(g: Gateway, log: Log, v: Vars, account: Account, body: nat)
    ensures var r := g.w.refresh(log);
            Due(g, log, AtRefresh(v, account, body)) ==
            Some(Refreshed(account.id > 0 && account.refreshable && r.retry && !r.failed && r.token != ""))
    ensures After(g, log, AtRefresh(v, account, body), Refreshed(true)) == AtReclose(v, account, body)
    ensures After(g, log, AtRefresh(v, account, body), Refreshed(false)) == AtRuling(v, account, body)
  {
  }

  lemma RecloseStep(g: Gateway, log: Log, v: Vars, account: Account, body: nat)
    ensures Due(g, log, AtReclose(v, account, body)) == Some(Closed(body))
    ensures After(g, log, AtReclose(v, account, body), Closed(body)) == AtSend(v, account, true)
  {
  }

  lemma SecondSendStep(g: Gateway, log: Log, v: Vars, account: Account)
    ensures var d := Due(g, log, AtSend(v, account, true));
            d.Some? &&
            if !g.w.buildRequest(log) then d.value == RequestUnbuilt
            else if !g.w.client(log) then d.value == ClientMissing(v.attempt)
            else
              && d.value.Sent? && d.value.attempt == v.attempt && d.value.sender == account.id
              && d.value.response.Response? == g.w.send(log).0
              && (d.value.response.Response? ==> d.value.response.status == g.w.send(log).1)
  {
  }

  /** At c the rules are read on a retryable answer: it is served if they let it through or no attempt is left. */
  ghost predicate RuledAt(g: Gateway, log: Log, c: nat, attempt: nat, body: nat) {
    && c + 1 < |log| && log[c] == RulesRead(g.w.passThrough(log[..c]))
    && log[c + 1] == if log[c] == RulesRead(true) || attempt + 1 >= g.maxAttempts then Served(body, g.w.aggregates(log[..c + 1]))
                     else Released(AccountSlot(attempt))
  }

  lemma SpotOfRuling(g: Gateway, log: Log, c: nat, v: Vars, account: Account, body: nat)
    requires SpotOf(g, log) == AtEnd && c <= |log| && SpotOf(g, log[..c]) == AtRuling(v, account, body)
    ensures RuledAt(g, log, c, v.attempt, body)
  {
    hide SpotOf;
    ActionIsDue(g, log, c);
    ActionIsDue(g, log, c + 1);
  }

  /**
   * Every answer that is not closed for a second send is served, ruled on at once, or ruled on after the check for a
   * refresh.
   */
  lemma AnswerFate(g: Gateway, log: Log, i: nat, status: int, body: nat)
    requires SpotOf(g, log) == AtEnd && i < |log| && log[i].Sent? && log[i].response == Response(status, body)
    ensures i + 1 < |log|
    ensures !Retryable(status) ==> log[i + 1] == Served(body, g.w.aggregates(log[..i + 1]))
    ensures var k := log[i].attempt;
            var checked := FirstSend(log, i) && g.maxAttempts != 1 && (status == 401 || status == 403);
            && (Retryable(status) && !checked ==> RuledAt(g, log, i + 1, k, body))
            && (checked && log[i + 1] == RulesRead(true) ==> RuledAt(g, log, i + 2, k, body))
            && (checked && log[i + 1] != RulesRead(true) ==>
                  i + 2 < |log| && (log[i + 2] == Refreshed(false) ==> RuledAt(g, log, i + 3, k, body)))
  {
    hide SpotOf, LastSelected, FirstSend, RuledAt, Due, After, AfterSend;
    SpotOfSend(g, log, i);
    ActionIsDue(g, log, i + 1);
    var s := SpotOf(g, log[..i]);
    AnswerSteps(g, s.v, s.account, s.again, log[i], status, body);
    DeliveryStep(g, log[..i + 1], s.v, body);
    var checked := FirstSend(log, i) && g.maxAttempts != 1 && (status == 401 || status == 403);
    if checked {
      CheckedFate(g, log, i, s, body);
    } else if Retryable(status) {
      SpotOfRuling(g, log, i + 1, s.v, s.account, body);
    }
  }

  lemma AnswerSteps(g: Gateway, v: Vars, account: Account, again: bool, a: Action, status: int, body: nat)
    requires a.Sent? && a.response == Response(status, body)
    ensures AfterSend(g, v, account, again, a) ==
            if !again && g.maxAttempts != 1 && (status == 401 || status == 403) then AtCheck(v, account, body)
            else if Retryable(status) then AtRuling(v, account, body)
            else AtDelivery(v, body)
  {
  }

  lemma DeliveryStep(g: Gateway, log: Log, v: Vars, body: nat)
    ensures Due(g, log, AtDelivery(v, body)) == Some(Served(body, g.w.aggregates(log)))
  {
  }

  lemma CheckedFate(g: Gateway, log: Log, i: nat, s: Spot, body: nat)
    requires SpotOf(g, log) == AtEnd && i + 1 < |log| && s.AtSend? && SpotOf(g, log[..i + 1]) == AtCheck(s.v, s.account, body)
    ensures log[i + 1] == RulesRead(true) ==> RuledAt(g, log, i + 2, s.v.attempt, body)
    ensures log[i + 1] != RulesRead(true) ==>
              i + 2 < |log| && (log[i + 2] == Refreshed(false) ==> RuledAt(g, log, i + 3, s.v.attempt, body))
  {
    hide SpotOf, RuledAt, Due, After;
    ActionIsDue(g, log, i + 1);
    CheckStep(g, log[..i + 1], s.v, s.account, body);
    if log[i + 1] == RulesRead(true) {
      SpotOfRuling(g, log, i + 2, s.v, s.account, body);
    } else {
      ActionIsDue(g, log, i + 2);
      RefreshStep(g, log[..i + 2], s.v, s.account, body);
      if log[i + 2] == Refreshed(false) {
        SpotOfRuling(g, log, i + 3, s.v, s.account, body);
      }
    }
  }

  /** A retryable answer that is served although attempts are left was let through by the rules, and only then. */
  lemma ServedEarly(g: Gateway, log: Log, c: nat, attempt: nat, body: nat)
    requires RuledAt(g, log, c, attempt, body) && attempt + 1 < g.maxAttempts
    ensures log[c + 1].Served? <==> g.w.passThrough(log[..c])
  {
  }

  /** Without an answer the slot goes back; then the client is gone, another account is tried, or 502 is the reply. */
  lemma NoAnswerFate(g: Gateway, log: Log, i: nat)
    requires SpotOf(g, log) == AtEnd && i < |log|
    requires log[i].ClientMissing? || (log[i].Sent? && log[i].response.NoResponse?)
    ensures i + 2 < |log| && log[i + 1] == Released(AccountSlot(log[i].attempt))
    ensures log[i + 2] ==
            if g.w.canceled(log[..i + 2]) then Abandoned
            else if log[i].attempt + 1 >= g.maxAttempts then Replied(502)
            else if g.w.select(log[..i + 2]).Chosen? then Selected(g.w.select(log[..i + 2]).account)
            else NotSelected
  {
    hide SpotOf, Due, After;
    ActionIsDue(g, log, i);
    OnTrack(g, log, i);
    var s := SpotOf(g, log[..i]);
    FailureStep(g, log[..i], s, log[i]);
    ActionIsDue(g, log, i + 1);
    ActionIsDue(g, log, i + 2);
    assert log[..i + 2] == log[..i + 1] + [log[i + 1]];
    FailureReleases(g, log[..i + 1], s.v, s.account);
    ChoiceStep(g, log[..i + 2]);
  }

  lemma FailureStep(g: Gateway, log: Log, s: Spot, a: Action)
    requires Due(g, log, s) == Some(a) && (a.ClientMissing? || (a.Sent? && a.response.NoResponse?))
    ensures s.AtSend? && a.attempt == s.v.attempt && After(g, log, s, a) == AtFailure(s.v, s.account)
  {
    hide SelectionStatus, AdmitStatus, EffectiveLimit, RetryableStatus, AuthorizationFailure, RefreshWorks, AppendUnique;
  }

  lemma FailureReleases(g: Gateway, log: Log, v: Vars, account: Account)
    ensures Due(g, log, AtFailure(v, account)) == Some(Released(AccountSlot(v.attempt)))
    ensures After(g, log, AtFailure(v, account), Released(AccountSlot(v.attempt))) ==
            AfterFailure(g, log + [Released(AccountSlot(v.attempt))], v, account)
  {
  }

  lemma ChoiceStep(g: Gateway, log: Log)
    ensures forall v :: Due(g, log, AtChoice(v)) == Some(if g.w.select(log).Chosen? then Selected(g.w.select(log).account) else NotSelected)
    ensures forall admission :: Due(g, log, AtAbandon(admission)) == Some(Abandoned)
    ensures forall status, admission, slots :: Due(g, log, AtReply(status, admission, slots)) == Some(Replied(status))
  {
  }

  /** The request cannot be built: the slot goes back and 502 is the reply, whatever attempts are left. */
  lemma UnbuiltFate(g: Gateway, log: Log, i: nat)
    requires SpotOf(g, log) == AtEnd && i < |log| && log[i] == RequestUnbuilt
    ensures i + 2 < |log| && log[i + 1].Released? && log[i + 1].slot.AccountSlot? && log[i + 2] == Replied(502)
  {
    hide SpotOf, Due, After;
    ActionIsDue(g, log, i);
    OnTrack(g, log, i);
    UnbuiltStep(g, log[..i], SpotOf(g, log[..i]));
    var s := SpotOf(g, log[..i]);
    ActionIsDue(g, log, i + 1);
    ReturnStep(g, log[..i + 1], s.v, 502);
    ActionIsDue(g, log, i + 2);
    ChoiceStep(g, log[..i + 2]);
  }

  lemma UnbuiltStep(g: Gateway, log: Log, s: Spot)
    requires Due(g, log, s) == Some(RequestUnbuilt)
    ensures s.AtSend? && After(g, log, s, RequestUnbuilt) == AtReturn(s.v, 502)
  {
  }

  lemma ReturnStep(g: Gateway, log: Log, v: Vars, status: int)
    ensures Due(g, log, AtReturn(v, status)) == Some(Released(AccountSlot(v.attempt)))
    ensures After(g, log, AtReturn(v, status), Released(AccountSlot(v.attempt))) == AtReply(status, v.admission, 2)
  {
  }

  // ---------- Before a send ----------

  /** The action after i, or the one after that when a carried answer is closed first. */
  ghost predicate ThenOrAfterClose(log: Log, i: nat, a: Action) {
    (i + 1 < |log| && log[i + 1] == a) || (i + 2 < |log| && log[i + 1].Closed? && log[i + 2] == a)
  }

  /**
   * No account: 429 if the accounts are unavailable and one of them had been refused for its limit, 409 if the response
   * is unknown, 503 otherwise.
   */
  lemma MissFate(g: Gateway, log: Log, i: nat)
    requires SpotOf(g, log) == AtEnd && i < |log| && log[i] == NotSelected
    ensures var reason := g.w.select(log[..i]);
            !reason.Chosen? &&
            ThenOrAfterClose(log, i, Replied(if reason.AccountsUnavailable? && SlotWasRefused(log[..i]) then 429
                                             else if reason.AffinityUnknown? then 409 else 503))
  {
    hide SpotOf, Due, After, SlotWasRefused;
    ActionIsDue(g, log, i);
    OnTrack(g, log, i);
    var s := SpotOf(g, log[..i]);
    MissStep(g, log[..i], s);
    assert s.v.limited <==> SlotWasRefused(log[..i]) by { RunKeepsHistory(g, log[..i]); }
    var v, status := s.v, SelectionStatus(g.w.select(log[..i]), s.v.limited);
    ActionIsDue(g, log, i + 1);
    MissReplies(g, log[..i + 1], v, status);
    if v.carried.Some? {
      ActionIsDue(g, log, i + 2);
      MissReplies(g, log[..i + 2], v.(carried := None), status);
    }
  }

  lemma MissStep(g: Gateway, log: Log, s: Spot)
    requires Due(g, log, s) == Some(NotSelected)
    ensures s.AtChoice? && !g.w.select(log).Chosen?
    ensures After(g, log, s, NotSelected) == AtMiss(s.v, SelectionStatus(g.w.select(log), s.v.limited))
  {
    hide SelectionStatus, AdmitStatus, EffectiveLimit, RetryableStatus, AuthorizationFailure, RefreshWorks, AnswerOf, AppendUnique;
  }

  lemma MissReplies(g: Gateway, log: Log, v: Vars, status: int)
    ensures v.carried.None? ==> Due(g, log, AtMiss(v, status)) == Some(Replied(status))
    ensures v.carried.Some? ==>
              var close := Closed(v.carried.value);
              Due(g, log, AtMiss(v, status)) == Some(close) && After(g, log, AtMiss(v, status), close) == AtMiss(v.(carried := None), status)
  {
  }

  /** An account that had its attempt already ends the request with 502; any other is asked for its slot. */
  lemma PickFate(g: Gateway, log: Log, i: nat, account: Account)
    requires SpotOf(g, log) == AtEnd && i < |log| && log[i] == Selected(account)
    ensures exists n: nat :: i < n <= i + 2 && n < |log| && (n == i + 2 ==> log[i + 1].Closed?) &&
                             log[n] == PickedAction(g, log[..n], account, Tried(log[..i]), Selections(log[..i]))
  {
    hide SpotOf, Due, After, Tried, PickedAction, Selections;
    ActionIsDue(g, log, i);
    OnTrack(g, log, i);
    var s := SpotOf(g, log[..i]);
    PickStep(g, log[..i], s, account);
    assert Ids(s.v.failed) == Tried(log[..i]) && s.v.attempt == Selections(log[..i]) by { RunKeepsHistory(g, log[..i]); }
    ActionIsDue(g, log, i + 1);
    PickActs(g, log[..i + 1], s.v, account);
    if s.v.carried.Some? {
      ActionIsDue(g, log, i + 2);
      PickActs(g, log[..i + 2], s.v.(carried := None), account);
      assert log[i + 2] == PickedAction(g, log[..i + 2], account, Tried(log[..i]), s.v.attempt);
    } else {
      assert log[i + 1] == PickedAction(g, log[..i + 1], account, Tried(log[..i]), s.v.attempt);
    }
  }

  /** What happens to a selected account in attempt k. */
  function PickedAction(g: Gateway, log: Log, account: Account, tried: set<int>, k: nat): Action {
    var limit := if account.limit > 0 then account.limit else g.accountLimit;
    if account.id in tried then Replied(502)
    else if account.id > 0 && limit > 0 && !g.w.accountSlot(log) then Refused(AccountSlot(k), account.id, limit)
    else Acquired(AccountSlot(k), account.id, limit)
  }

  lemma PickStep(g: Gateway, log: Log, s: Spot, account: Account)
    requires Due(g, log, s) == Some(Selected(account))
    ensures s.AtChoice? && After(g, log, s, Selected(account)) == AtPick(s.v, account)
  {
    hide SelectionStatus, AdmitStatus, EffectiveLimit, RetryableStatus, AuthorizationFailure, RefreshWorks, AnswerOf, AppendUnique;
  }

  lemma PickActs(g: Gateway, log: Log, v: Vars, account: Account)
    ensures v.carried.None? ==> Due(g, log, AtPick(v, account)) == Some(PickedAction(g, log, account, Ids(v.failed), v.attempt))
    ensures v.carried.Some? ==>
              var close := Closed(v.carried.value);
              Due(g, log, AtPick(v, account)) == Some(close) && After(g, log, AtPick(v, account), close) == AtPick(v.(carried := None), account)
  {
  }

  /** A refused account slot: another account is tried, or 429 is the reply. */
  lemma RefusalFate(g: Gateway, log: Log, i: nat, k: nat)
    requires SpotOf(g, log) == AtEnd && i < |log| && log[i].Refused? && log[i].slot == AccountSlot(k)
    ensures i + 1 < |log|
    ensures log[i + 1] ==
            if k + 1 >= g.maxAttempts then Replied(429)
            else if g.w.select(log[..i + 1]).Chosen? then Selected(g.w.select(log[..i + 1]).account)
            else NotSelected
  {
    hide SpotOf, Due, After;
    ActionIsDue(g, log, i);
    OnTrack(g, log, i);
    RefusalStep(g, log[..i], SpotOf(g, log[..i]), log[i]);
    ActionIsDue(g, log, i + 1);
    ChoiceStep(g, log[..i + 1]);
  }

  lemma RefusalStep(g: Gateway, log: Log, s: Spot, a: Action)
    requires Due(g, log, s) == Some(a) && a.Refused? && a.slot.AccountSlot?
    ensures s.AtPick? && a.slot == AccountSlot(s.v.attempt)
    ensures After(g, log, s, a) ==
            if s.v.attempt + 1 < g.maxAttempts then AtChoice(NextTry(s.v, s.account).(limited := true)) else AtReply(429, s.v.admission, 2)
  {
    hide SelectionStatus, AdmitStatus, EffectiveLimit, RetryableStatus, AuthorizationFailure, RefreshWorks, AnswerOf, AppendUnique;
  }

  /** With the slot in hand: the budgets are asked unless they granted already, and the use is recorded. */
  lemma SlotFate(g: Gateway, log: Log, i: nat)
    requires SpotOf(g, log) == AtEnd && i < |log| && log[i].Acquired? && log[i].slot.AccountSlot?
    ensures i + 1 < |log|
    ensures log[i + 1] ==
            if !g.budgets || LastAdmission(log[..i]) != "" then UsageRecorded(g.w.recordUsed(log[..i + 1]))
            else
              match g.w.admit(log[..i + 1])
              case Granted(id) => Admitted(id)
              case Denied(id, err) => AdmissionDenied(id, err)
  {
    hide SpotOf, Due, After, LastAdmission;
    ActionIsDue(g, log, i);
    OnTrack(g, log, i);
    var s := SpotOf(g, log[..i]);
    SlotStep(g, log[..i], s, log[i]);
    assert s.v.admission == LastAdmission(log[..i]) by { RunKeepsHistory(g, log[..i]); }
    ActionIsDue(g, log, i + 1);
    AdmissionSteps(g, log[..i + 1], s.v, s.account);
  }

  lemma SlotStep(g: Gateway, log: Log, s: Spot, a: Action)
    requires Due(g, log, s) == Some(a) && a.Acquired? && a.slot.AccountSlot?
    ensures s.AtPick?
    ensures After(g, log, s, a) ==
            if s.v.admission == "" && g.budgets then AtAdmission(s.v, s.account) else AtRecord(s.v, s.account)
  {
    hide SelectionStatus, AdmitStatus, EffectiveLimit, RetryableStatus, AuthorizationFailure, RefreshWorks, AnswerOf, AppendUnique;
  }

  lemma AdmissionSteps(g: Gateway, log: Log, v: Vars, account: Account)
    ensures Due(g, log, AtRecord(v, account)) == Some(UsageRecorded(g.w.recordUsed(log)))
    ensures Due(g, log, AtAdmission(v, account)) ==
            Some(if g.w.admit(log).Granted? then Admitted(g.w.admit(log).id) else AdmissionDenied(g.w.admit(log).id, g.w.admit(log).err))
    ensures After(g, log, AtRecord(v, account), UsageRecorded(true)) == AtSend(v, account, false)
    ensures After(g, log, AtRecord(v, account), UsageRecorded(false)) == AtReturn(v, 500)
  {
  }

  /** A denied admission gives the slot back: 503 while the budget is set up, 500 if it failed, 429 if it is used up. */
  lemma DenialFate(g: Gateway, log: Log, i: nat, id: string, err: AdmitError)
    requires SpotOf(g, log) == AtEnd && i < |log| && log[i] == AdmissionDenied(id, err)
    ensures i + 2 < |log| && log[i + 1].Released? && log[i + 1].slot.AccountSlot?
    ensures log[i + 2] == Replied(if err.Initializing? then 503 else if err.OtherAdmitError? then 500 else 429)
  {
    hide SpotOf, Due, After;
    ActionIsDue(g, log, i);
    OnTrack(g, log, i);
    var s := SpotOf(g, log[..i]);
    DenialStep(g, log[..i], s, id, err);
    ActionIsDue(g, log, i + 1);
    ReturnStep(g, log[..i + 1], s.v.(admission := id), AdmitStatus(err));
    ActionIsDue(g, log, i + 2);
    ChoiceStep(g, log[..i + 2]);
  }

  lemma DenialStep(g: Gateway, log: Log, s: Spot, id: string, err: AdmitError)
    requires Due(g, log, s) == Some(AdmissionDenied(id, err))
    ensures s.AtAdmission? && After(g, log, s, AdmissionDenied(id, err)) == AtReturn(s.v.(admission := id), AdmitStatus(err))
  {
    hide SelectionStatus, AdmitStatus, EffectiveLimit, RetryableStatus, AuthorizationFailure, RefreshWorks, AnswerOf, AppendUnique;
  }

  /** The use is recorded: the request is built and sent; otherwise the slot goes back and 500 is the reply. */
  lemma UseFate(g: Gateway, log: Log, i: nat, recorded: bool)
    requires SpotOf(g, log) == AtEnd && i < |log| && log[i] == UsageRecorded(recorded)
    ensures i + 1 < |log|
    ensures !recorded ==> i + 2 < |log| && log[i + 1].Released? && log[i + 1].slot.AccountSlot? && log[i + 2] == Replied(500)
    ensures recorded ==>
              if !g.w.buildRequest(log[..i + 1]) then log[i + 1] == RequestUnbuilt
              else if !g.w.client(log[..i + 1]) then log[i + 1].ClientMissing?
              else
                && log[i + 1].Sent? && LastSelected(log[..i]).Some? && log[i + 1].sender == LastSelected(log[..i]).value.id
                && log[i + 1].response.Response? == g.w.send(log[..i + 1]).0
                && (log[i + 1].response.Response? ==> log[i + 1].response.status == g.w.send(log[..i + 1]).1)
  {
    hide SpotOf, Due, After, LastSelected;
    ActionIsDue(g, log, i);
    OnTrack(g, log, i);
    var s := SpotOf(g, log[..i]);
    UseStep(g, log[..i], s, recorded);
    assert LastSelected(log[..i]) == Some(s.account) by { AccountRemembered(g, log[..i]); }
    ActionIsDue(g, log, i + 1);
    AdmissionSteps(g, log[..i], s.v, s.account);
    if recorded {
      FirstSendStep(g, log[..i + 1], s.v, s.account);
    } else {
      ReturnStep(g, log[..i + 1], s.v, 500);
      ActionIsDue(g, log, i + 2);
      ChoiceStep(g, log[..i + 2]);
    }
  }

  lemma UseStep(g: Gateway, log: Log, s: Spot, recorded: bool)
    requires Due(g, log, s) == Some(UsageRecorded(recorded))
    ensures s.AtRecord?
  {
  }

  lemma FirstSendStep(g: Gateway, log: Log, v: Vars, account: Account)
    ensures var d := Due(g, log, AtSend(v, account, false));
            d.Some? &&
            if !g.w.buildRequest(log) then d.value == RequestUnbuilt
            else if !g.w.client(log) then d.value == ClientMissing(v.attempt)
            else
              && d.value.Sent? && d.value.attempt == v.attempt && d.value.sender == account.id
              && d.value.response.Response? == g.w.send(log).0
              && (d.value.response.Response? ==> d.value.response.status == g.w.send(log).1)
  {
  }

  /** A granted admission is followed by the usage record. */
  lemma GrantFate(g: Gateway, log: Log, i: nat)
    requires SpotOf(g, log) == AtEnd && i < |log| && log[i].Admitted?
    ensures i + 1 < |log| && log[i + 1] == UsageRecorded(g.w.recordUsed(log[..i + 1]))
  {
    hide SpotOf, Due, After;
    ActionIsDue(g, log, i);
    OnTrack(g, log, i);
    var s := SpotOf(g, log[..i]);
    GrantStep(g, log[..i], s, log[i]);
    ActionIsDue(g, log, i + 1);
    AdmissionSteps(g, log[..i + 1], s.v.(admission := log[i].id), s.account);
  }

  lemma GrantStep(g: Gateway, log: Log, s: Spot, a: Action)
    requires Due(g, log, s) == Some(a) && a.Admitted?
    ensures s.AtAdmission? && After(g, log, s, a) == AtRecord(s.v.(admission := a.id), s.account)
  {
    hide SelectionStatus, AdmitStatus, EffectiveLimit, RetryableStatus, AuthorizationFailure, RefreshWorks, AnswerOf, AppendUnique;
  }

  // ---------- The beginning ----------

  /** The two request slots, the request body, and the first choice of an account. */
  lemma Opening(g: Gateway, log: Log)
    requires SpotOf(g, log) == AtEnd
    ensures |log| >= 2
    ensures if g.gatewayLimit > 0 && !g.w.gatewaySlot([])
            then log == [Refused(GatewaySlot, 0, g.gatewayLimit), Replied(429)]
            else log[0] == Acquired(GatewaySlot, 0, g.gatewayLimit) && |log| >= 3 &&
                 if g.keyId > 0 && g.keyLimit > 0 && !g.w.keySlot(log[..1])
                 then log[1..] == [Refused(KeySlot, g.keyId, g.keyLimit), Replied(429), Released(GatewaySlot)]
                 else log[1] == Acquired(KeySlot, g.keyId, g.keyLimit) &&
                      match g.w.readBody(log[..2])
                      case BodyCanceled => log[2] == Abandoned
                      case BodyRejected(status) => log[2] == BodyRefused(status) && |log| >= 4 && log[3] == Replied(status)
                      case BodyReady => log[2] == if g.w.select(log[..2]).Chosen? then Selected(g.w.select(log[..2]).account) else NotSelected
  {
    hide Due, After;
    GatewaySteps(g);
    assert log[..0] == [];
    ActionIsDue(g, log, 0);
    ActionIsDue(g, log, 1);
    ReplySteps(g, log[..1], 429, "");
    if g.gatewayLimit > 0 && !g.w.gatewaySlot([]) {
      OnTrack(g, log, 2);
      assert log == [log[0], log[1]];
    } else {
      KeySteps(g, log[..1]);
      OpeningAfterKey(g, log);
    }
  }

  lemma OpeningAfterKey(g: Gateway, log: Log)
    requires SpotOf(g, log) == AtEnd && |log| >= 2 && SpotOf(g, log[..1]) == AtKey
    ensures |log| >= 3
    ensures if g.keyId > 0 && g.keyLimit > 0 && !g.w.keySlot(log[..1])
            then log[1..] == [Refused(KeySlot, g.keyId, g.keyLimit), Replied(429), Released(GatewaySlot)]
            else log[1] == Acquired(KeySlot, g.keyId, g.keyLimit) &&
                 match g.w.readBody(log[..2])
                 case BodyCanceled => log[2] == Abandoned
                 case BodyRejected(status) => log[2] == BodyRefused(status) && |log| >= 4 && log[3] == Replied(status)
                 case BodyReady => log[2] == if g.w.select(log[..2]).Chosen? then Selected(g.w.select(log[..2]).account) else NotSelected
  {
    hide Due, After, SpotOf;
    KeySteps(g, log[..1]);
    ActionIsDue(g, log, 1);
    assert log[..2] == log[..1] + [log[1]];
    OnTrack(g, log, 2);
    ActionIsDue(g, log, 2);
    ReplySteps(g, log[..2], 429, "");
    ChoiceStep(g, log[..2]);
    if log[1].Refused? {
      ActionIsDue(g, log, 3);
      ReplySteps(g, log[..3], 429, "");
      OnTrack(g, log, 4);
      assert log[1..] == [log[1], log[2], log[3]];
    } else if g.w.readBody(log[..2]).BodyRejected? {
      BodySteps(g, log[..2], g.w.readBody(log[..2]).status);
      ActionIsDue(g, log, 3);
      ChoiceStep(g, log[..3]);
    }
  }

  lemma GatewaySteps(g: Gateway)
    ensures var refuses := g.gatewayLimit > 0 && !g.w.gatewaySlot([]);
            Due(g, [], AtGateway) == Some(if refuses then Refused(GatewaySlot, 0, g.gatewayLimit) else Acquired(GatewaySlot, 0, g.gatewayLimit))
    ensures After(g, [], AtGateway, Refused(GatewaySlot, 0, g.gatewayLimit)) == AtReply(429, "", 0)
    ensures After(g, [], AtGateway, Acquired(GatewaySlot, 0, g.gatewayLimit)) == AtKey
  {
  }

  lemma KeySteps(g: Gateway, log: Log)
    ensures var refuses := g.keyId > 0 && g.keyLimit > 0 && !g.w.keySlot(log);
            Due(g, log, AtKey) == Some(if refuses then Refused(KeySlot, g.keyId, g.keyLimit) else Acquired(KeySlot, g.keyId, g.keyLimit))
    ensures After(g, log, AtKey, Refused(KeySlot, g.keyId, g.keyLimit)) == AtReply(429, "", 1)
    ensures After(g, log, AtKey, Acquired(KeySlot, g.keyId, g.keyLimit)) == AfterKey(g, log + [Acquired(KeySlot, g.keyId, g.keyLimit)])
  {
  }

  lemma BodySteps(g: Gateway, log: Log, status: int)
    ensures Due(g, log, AtBody(status)) == Some(BodyRefused(status))
    ensures After(g, log, AtBody(status), BodyRefused(status)) == AtReply(status, "", 2)
  {
  }

  lemma ReplySteps(g: Gateway, log: Log, status: int, admission: string)
    ensures Due(g, log, AtReply(status, admission, 0)) == Some(Replied(status))
    ensures After(g, log, AtReply(status, admission, 0), Replied(status)) == AtEnd
    ensures Due(g, log, AtReply(status, admission, 1)) == Some(Replied(status))
    ensures After(g, log, AtReply(status, admission, 1), Replied(status)) == AtGatewayRelease(admission)
    ensures Due(g, log, AtGatewayRelease(admission)) == Some(Released(GatewaySlot))
    ensures After(g, log, AtGatewayRelease(""), Released(GatewaySlot)) == AtEnd
  {
  }
}
