/** What each invoice request stores, refuses and leaves alone. */
module Handlers {
  import opened Results
  import opened Records
  import opened Reconcile
  import opened ReconcileLaws
  import opened Lifecycle
  import opened LifecycleRuns

  // ---- What is refused -----------------------------------------------------------------------------

  /** The record a request works on, if it names one that must be a draft. */
  function DraftNamed(request: Request): Option<nat>
  {
    match request
    case UpdateDraft(id, _, _) => Some(id)
    case DeleteDraft(id) => Some(id)
    case Submit(recordId, _, _, _) => recordId
    case _ => None
  }

  predicate IsThere(t: Table, profile: string, id: nat)
  {
    id in t.rows && t.rows[id].profile == profile
  }

  /** A request on a draft is refused as unknown exactly when there is no such record of the profile, and
      as no draft exactly when there is one that is neither draft nor invalid; then nothing changes. */
  lemma RefusedIff(t: Table, profile: string, request: Request)
    requires !request.InquirePending? && !request.InquireOne?
    ensures var o, named := Handle(t, profile, request), DraftNamed(request);
      && (o.refused == Some(NoSuchInvoice) <==> named.Some? && !IsThere(t, profile, named.value))
      && (o.refused == Some(NotADraft) <==>
            && named.Some? && IsThere(t, profile, named.value)
            && t.rows[named.value].state != Draft && t.rows[named.value].state != Invalid)
      && (o.refused == Some(NoSuchInvoice) || o.refused == Some(NotADraft) ==> o.table == t)
  {
  }

  /** A sound submission that is not sent leaves no trace; an unsound one is noted and not sent. */
  lemma SubmissionRefused(
    t: Table, profile: string, recordId: Option<nat>, payload: Payload, report: Report, sent: Option<Submission>)
    requires recordId.Some? ==> DraftFault(t, profile, recordId.value).None?
    ensures var o := SubmitResult(t, profile, recordId, payload, report, sent);
      && (o.filed.Some? <==> report.ok && sent.Some?)
      && (o.refused == Some(RulesBroken) <==> !report.ok)
      && (o.refused == Some(SendingFailed) <==> report.ok && sent.None?)
      && (o.refused == Some(SendingFailed) ==> o.table == t)
      && (!report.ok ==>
            var id := if recordId.Some? then recordId.value else t.next;
            id in o.table.rows && StoredAs(o.table.rows[id], payload, report))
  {
  }

  /** The record holds the invoice as given, marked by what the rules said. */
  predicate StoredAs(r: Record, payload: Payload, report: Report)
  {
    && r.payload == payload && r.detail.report == Some(report)
    && r.state == if report.ok then Draft else Invalid
  }

  // ---- What is stored -------------------------------------------------------------------------------

  /** Saving stores the invoice under a new id, updating under its own, deleting nothing under it; in all
      three no other record changes. */
  lemma DraftsStored(t: Table, profile: string, request: Request, id: nat)
    requires t.Valid() && Handle(t, profile, request).refused.None?
    requires match request
      case SaveDraft(_, _) => id == t.next
      case UpdateDraft(named, _, _) => id == named
      case DeleteDraft(named) => id == named
      case _ => false
    ensures var u := Handle(t, profile, request).table;
      && (forall other | other != id ::
            (other in u.rows <==> other in t.rows) && (other in t.rows ==> u.rows[other] == t.rows[other]))
      && match request
         case SaveDraft(payload, report) =>
           id !in t.rows && u.next == t.next + 1 && IsThere(u, profile, id) && StoredAs(u.rows[id], payload, report)
         case UpdateDraft(_, payload, report) => IsThere(u, profile, id) && StoredAs(u.rows[id], payload, report)
         case _ => id !in u.rows
  {
  }

  /** A single inquiry is refused for no record of the profile, for one without a reference, and for one the
      service says nothing about; then nothing changes. */
  lemma InquiryRefusedIff(t: Table, profile: string, id: nat, service: Service)
    ensures var o := InquireOneResult(t, profile, id, service);
      && (o.refused == Some(NoSuchInvoice) <==> !IsThere(t, profile, id))
      && (o.refused == Some(NoReference) <==> IsThere(t, profile, id) && !Truthy(t.rows[id].reference))
      && (o.refused == Some(NoAnswer) <==>
            && IsThere(t, profile, id) && Truthy(t.rows[id].reference)
            && t.rows[id].reference.value !in AnswersTo([Item(id, t.rows[id])], service))
      && (o.refused.Some? ==> o.table == t)
  {
    hide Process;
  }

  // ---- Profiles are apart ------------------------------------------------------------------------------

  /** No request of one profile touches a record of another. */
  lemma OtherProfilesUntouched(t: Table, c: Call, x: nat)
    requires t.Valid() && x in t.rows && t.rows[x].profile != c.profile
    ensures var u := Handle(t, c.profile, c.request).table;
      x in u.rows && u.rows[x] == t.rows[x]
  {
    match c.request {
      case InquirePending(limit, service) =>
        PendingIsBatch(t, c.profile, limit);
        var items := PendingItems(t, c.profile, limit);
        var answers := AnswersTo(items, service);
        assert forall i | 0 <= i < |items| :: t.Awaits(items[i].id, c.profile);
        forall k | 0 <= k < |items|
          ensures !Voids(t, items[k], c.profile, answers, x)
        {
          FindBelowIsHighest(t, c.profile, items[k].record.payload.irtaxid, t.next);
        }
        hide Reconciled, RowAfter, Voids;
        TableFollowsRows(t, items, c.profile, answers, false, x);
        UnansweredRow(t, items, c.profile, answers, x);
        FirstVoiderIsItem(t, items, c.profile, answers, 0, x);
      case InquireOne(id, service) =>
        if id in t.rows {
          var item := Item(id, t.rows[id]);
          var answers := AnswersTo([item], service);
          if Ref(item.record) in answers {
            var saved := t.Save(id, Judged(item.record, answers[Ref(item.record)]));
            FindBelowIsHighest(saved, c.profile, item.record.payload.irtaxid, saved.next);
          }
        }
      case _ =>
    }
  }

  lemma {:induction false} ProfilesApart(s: System, calls: seq<Call>, x: nat)
    requires Inv(s) && x in s.table.rows && forall i | 0 <= i < |calls| :: calls[i].profile != s.table.rows[x].profile
    ensures x in Run(s, calls).table.rows && Run(s, calls).table.rows[x] == s.table.rows[x]
  {
    if calls != [] {
      hide Handle, RowOk;
      var front, last := calls[..|calls| - 1], calls[|calls| - 1];
      ProfilesApart(s, front, x);
      RunKeeps(s, front);
      OtherProfilesUntouched(Run(s, front).table, last, x);
    }
  }
}
