/** The store approval state machine: read, decide, then compare-and-set, with the audit entry alongside. */
module StoreApproval {
  import opened Common
  import opened Text

  type UserId = string
  type Instant = int

  const STALE_CLAIM_MS := 24 * 60 * 60 * 1000

  datatype Status = Pending | UnderReview | NeedsRevision | Active | Rejected

  datatype Verification = Submitted | Approved | DocumentsRejected

  datatype Store = Store(
    status: Status, isActive: bool, activeBeforeReview: Option<bool>,
    claimedBy: Option<UserId>, claimedAt: Option<Instant>, rejectedAt: Option<Instant>,
    rejectionReason: Option<string>, revisionNotes: Option<string>,
    lastSubmittedAt: Option<Instant>, reviewedBy: Option<UserId>, reviewedAt: Option<Instant>, documents: Verification)

  datatype Entry = Entry(from: Status, to: Status, actor: UserId, note: Option<string>, takenFrom: Option<UserId>)

  datatype ApprovalError =
    | AlreadyThere
    | NotAllowed
    | NoteRequired
    | AlreadyClaimed(holder: UserId)
    | ConcurrentModification

  // ---- rules --------------------------------------------------------------------------

  function AllowedTransitions(from: Status): set<Status> {
    match from
    case Pending => {UnderReview}
    case UnderReview => {Pending, Active, NeedsRevision, Rejected}
    case NeedsRevision => {Pending}
    case Active => {UnderReview, Rejected}
    case Rejected => {UnderReview}
  }

  predicate IsClaimStale(claimedAt: Option<Instant>, now: Instant) {
    claimedAt.None? || now - claimedAt.value > STALE_CLAIM_MS
  }

  // ---- notes --------------------------------------------------------------------------

  /** The trimmed note, or nothing when it is missing or blank. */
  function NoteText(note: Option<string>): Option<string> {
    if note.Some? && Trim(note.value) != "" then Some(Trim(note.value)) else None
  }

  /** A text that says something: it starts and ends with something other than a space. */
  predicate IsText(text: Option<string>) {
    text.Some? && text.value != "" && !IsSpace(text.value[0]) && !IsSpace(text.value[|text.value| - 1])
  }

  lemma NoteTextIsText(note: Option<string>)
    requires NoteText(note).Some?
    ensures IsText(NoteText(note))
  {
    var start := TrimStart(note.value);
    assert TrimEnd(start) <= start && start != "";
  }

  predicate NeedsNote(to: Status) {
    to.NeedsRevision? || to.Rejected?
  }

  // ---- one transition -----------------------------------------------------------------

  /** Why a transition is refused before anything is written, in the order it is checked. */
  function Refusal(from: Status, to: Status, note: Option<string>): Option<ApprovalError> {
    if from == to then Some(AlreadyThere)
    else if to !in AllowedTransitions(from) then Some(NotAllowed)
    else if NeedsNote(to) && NoteText(note).None? then Some(NoteRequired)
    else None
  }

  /** The columns written; `seen` is the row as it was read. Columns not named keep their value in `row`. */
  function DataFor(row: Store, seen: Store, to: Status, actor: UserId, note: Option<string>, now: Instant): Store {
    var cleared := row.(claimedBy := None, claimedAt := None);
    var reviewed := cleared.(reviewedAt := Some(now), reviewedBy := Some(actor), activeBeforeReview := None);
    match to
    case UnderReview =>
      var claimed := row.(status := to, claimedBy := Some(actor), claimedAt := Some(now), rejectedAt := None);
      if seen.status.Active? then claimed.(isActive := false, activeBeforeReview := Some(seen.isActive)) else claimed
    case Pending =>
      var queued := cleared.(status := to, rejectedAt := None);
      if seen.status.NeedsRevision? then queued.(lastSubmittedAt := Some(now)) else queued
    case Active =>
      reviewed.(status := to, rejectedAt := None, rejectionReason := None, revisionNotes := None, documents := Approved,
                isActive := if seen.activeBeforeReview.Some? then seen.activeBeforeReview.value else true)
    case NeedsRevision =>
      reviewed.(status := to, rejectedAt := None, rejectionReason := None, revisionNotes := NoteText(note), isActive := false)
    case Rejected =>
      reviewed.(status := to, rejectedAt := Some(now), rejectionReason := NoteText(note), revisionNotes := None,
                isActive := false, documents := DocumentsRejected)
  }

  // ---- the rules, case by case ----------------------------------------------------------

  /** The moves the service makes, as pairs. */
  const MOVES := {
    (Pending, UnderReview), (UnderReview, Pending), (UnderReview, Active), (UnderReview, NeedsRevision),
    (UnderReview, Rejected), (NeedsRevision, Pending), (Active, UnderReview), (Active, Rejected), (Rejected, UnderReview)}

  /** Something other than blanks. */
  predicate Says(note: Option<string>) {
    note.Some? && !Blank(note.value)
  }

  lemma NoteTextSays(note: Option<string>)
    ensures NoteText(note).Some? <==> Says(note)
    ensures NoteText(note).Some? ==> note.Some? && NoteText(note).value == Trim(note.value)
  {
    if note.Some? {
      TrimLeaves(note.value);
    }
  }

  /** The four refusals, in order: already there, no such move, no note for a decision that needs one. */
  lemma RefusalIs(from: Status, to: Status, note: Option<string>)
    ensures (from, to) in MOVES ==> from != to
    ensures Refusal(from, to, note) ==
      if from == to then Some(AlreadyThere)
      else if (from, to) !in MOVES then Some(NotAllowed)
      else if (to == NeedsRevision || to == Rejected) && !Says(note) then Some(NoteRequired)
      else None
  {
    NoteTextSays(note);
  }

  /** What a transition leaves in each column; `was` is the row written over, `seen` the row read. */
  lemma WrittenColumns(was: Store, seen: Store, to: Status, actor: UserId, note: Option<string>, now: Instant)
    ensures var s := DataFor(was, seen, to, actor, note, now);
      var decided := to == Active || to == NeedsRevision || to == Rejected;
      s.status == to &&
      s.claimedBy == (if to == UnderReview then Some(actor) else None) &&
      s.claimedAt == (if to == UnderReview then Some(now) else None) &&
      s.rejectedAt == (if to == Rejected then Some(now) else None) &&
      s.rejectionReason == (if to == Rejected then NoteText(note) else if decided then None else was.rejectionReason) &&
      s.revisionNotes == (if to == NeedsRevision then NoteText(note) else if decided then None else was.revisionNotes) &&
      s.lastSubmittedAt == (if seen.status == NeedsRevision && to == Pending then Some(now) else was.lastSubmittedAt) &&
      s.reviewedBy == (if decided then Some(actor) else was.reviewedBy) &&
      s.reviewedAt == (if decided then Some(now) else was.reviewedAt) &&
      s.documents == (if to == Active then Approved else if to == Rejected then DocumentsRejected else was.documents)
    ensures var s := DataFor(was, seen, to, actor, note, now);
      var takenBack := to == UnderReview && seen.status == Active;
      s.isActive == (if to == Active then seen.activeBeforeReview != Some(false)
                     else if to == NeedsRevision || to == Rejected || takenBack then false else was.isActive) &&
      s.activeBeforeReview == (if takenBack then Some(seen.isActive)
                               else if to == UnderReview || to == Pending then was.activeBeforeReview else None)
  {
  }

  // ---- the invariant ------------------------------------------------------------------

  /** The columns that must track the status. */
  ghost predicate Tracks(s: Store) {
    (s.claimedBy.Some? <==> s.status.UnderReview?) &&
    (s.claimedAt.Some? <==> s.status.UnderReview?) &&
    (s.rejectedAt.Some? <==> s.status.Rejected?) &&
    (s.status.Rejected? ==> IsText(s.rejectionReason) && s.documents.DocumentsRejected?) &&
    (s.status.NeedsRevision? ==> IsText(s.revisionNotes)) &&
    (s.status.Active? ==> s.documents.Approved?) &&
    (s.activeBeforeReview.Some? ==> s.status.UnderReview? || s.status.Pending?)
  }

  predicate IsMove(e: Entry) {
    e.to in AllowedTransitions(e.from) || (e.from.UnderReview? && e.to.UnderReview?)
  }

  /** The audit entries lead, move by move, from the first status to `at`. */
  ghost predicate IsPath(audit: seq<Entry>, at: Status) {
    if audit == [] then at.Pending? else
      var last := audit[|audit| - 1];
      last.to == at && IsMove(last) && IsPath(audit[..|audit| - 1], last.from)
  }

  /** The status an entry moves on from: the first one, or where the entry before it ended. */
  function Before(audit: seq<Entry>, k: nat): Status
    requires k < |audit|
  {
    if k == 0 then Pending else audit[k - 1].to
  }

  /** Read as a whole: it starts at PENDING, each entry starts where the one before it ended, and each is a legal move. */
  lemma {:induction false} PathLinks(audit: seq<Entry>, at: Status, k: nat)
    requires IsPath(audit, at) && k < |audit|
    ensures IsMove(audit[k]) && ((audit[k].from, audit[k].to) in MOVES || audit[k].from == audit[k].to == UnderReview)
    ensures audit[k].from == Before(audit, k)
    ensures audit[|audit| - 1].to == at
    decreases |audit|
  {
    var n := |audit| - 1;
    if k < n {
      PathLinks(audit[..n], audit[n].from, k);
    } else if n > 0 {
      PathLinks(audit[..n], audit[n].from, n - 1);
    }
  }

  lemma PathGrows(audit: seq<Entry>, e: Entry)
    requires IsPath(audit, e.from) && IsMove(e)
    ensures IsPath(audit + [e], e.to)
  {
    assert (audit + [e])[..|audit|] == audit;
  }

  lemma TransitionTracks(row: Store, seen: Store, to: Status, actor: UserId, note: Option<string>, now: Instant)
    requires Tracks(row) && seen.status == row.status && Refusal(row.status, to, note).None?
    ensures Tracks(DataFor(row, seen, to, actor, note, now))
  {
    if NeedsNote(to) {
      NoteTextIsText(note);
    }
  }

  // ---- the service, one call at a time ------------------------------------------------

  /** What a claim is audited as; a takeover names who held it. */
  function ClaimEntry(s: Store, admin: UserId): Entry {
    Entry(s.status, UnderReview, admin, None, if s.status.UnderReview? then s.claimedBy else None)
  }

  /** Somebody else claimed it within the last day. */
  predicate HeldByAnother(s: Store, admin: UserId, now: Instant) {
    s.claimedBy != Some(admin) && s.claimedAt.Some? && now - s.claimedAt.value <= 24 * 60 * 60 * 1000
  }

  class StoreRecord {
    var store: Store
    var audit: seq<Entry>

    constructor ()
      ensures Valid() && store.status.Pending? && audit == []
    {
      store := Store(Pending, false, None, None, None, None, None, None, None, None, None, Submitted);
      audit := [];
    }

    ghost predicate Valid()
      reads this
    {
      Tracks(store) && IsPath(audit, store.status)
    }

    method Transition(to: Status, actor: UserId, note: Option<string>, stealClaimFrom: Option<UserId>, now: Instant)
        returns (result: Result<Store, ApprovalError>)
      requires Valid()
      modifies this
      ensures Valid()
      ensures result.Ok? <==> Refusal(old(store).status, to, note).None?
      ensures result.Ok? <==> (old(store).status, to) in MOVES && (to == NeedsRevision || to == Rejected ==> Says(note))
      ensures result.Err? ==>
        Some(result.error) == Refusal(old(store).status, to, note) && store == old(store) && audit == old(audit)
      ensures result.Ok? ==>
        store == DataFor(old(store), old(store), to, actor, note, now) &&
        audit == old(audit) + [Entry(old(store).status, to, actor, NoteText(note), stealClaimFrom)]
    {
      var from := store.status;
      RefusalIs(from, to, note);
      if from == to {
        return Err(AlreadyThere);
      }
      if to !in AllowedTransitions(from) {
        return Err(NotAllowed);
      }
      if (to.NeedsRevision? || to.Rejected?) && NoteText(note).None? {
        return Err(NoteRequired);
      }
      var entry := Entry(from, to, actor, NoteText(note), stealClaimFrom);
      TransitionTracks(store, store, to, actor, note, now);
      PathGrows(audit, entry);
      store := DataFor(store, store, to, actor, note, now);
      audit := audit + [entry];
      result := Ok(store);
    }

    /** Claim, or take over a claim that is one's own, stale, or knowingly overridden. */
    method Claim(admin: UserId, force: bool, now: Instant) returns (result: Result<Store, ApprovalError>)
      requires Valid()
      modifies this
      ensures Valid()
      ensures result.Ok? ==> store.status.UnderReview? && store.claimedBy == Some(admin) && store.claimedAt == Some(now)
      ensures result.Ok? ==> audit == old(audit) + [ClaimEntry(old(store), admin)]
      ensures result.Err? ==> store == old(store) && audit == old(audit)
      ensures old(store).status.UnderReview? ==>
        (result.Err? <==> !force && HeldByAnother(old(store), admin, now))
      ensures !old(store).status.UnderReview? ==> (result.Err? <==> old(store).status.NeedsRevision?)
      ensures result.Err? ==>
        result.error ==
          if old(store).claimedBy.Some? then AlreadyClaimed(old(store).claimedBy.value) else NotAllowed
    {
      var heldByOther := store.status.UnderReview? && store.claimedBy.Some? && store.claimedBy.value != admin;
      if heldByOther && !force && !IsClaimStale(store.claimedAt, now) {
        return Err(AlreadyClaimed(store.claimedBy.value));
      }
      if store.status.UnderReview? {
        var entry := Entry(UnderReview, UnderReview, admin, None, store.claimedBy);
        PathGrows(audit, entry);
        store := store.(claimedBy := Some(admin), claimedAt := Some(now));
        audit := audit + [entry];
        return Ok(store);
      }
      result := Transition(UnderReview, admin, None, None, now);
    }
  }

  /** Taken back into review and approved again, a store is as open as it was, however often it was queued in between. */
  lemma {:induction false} ReapprovalRestores(live: Store, steps: seq<(Status, UserId, Instant)>, k: nat)
    requires live.status.Active? && Tracks(live) && 1 <= k <= |steps|
    requires steps[0].0.UnderReview?
    requires forall j :: 0 <= j < k ==> steps[j].0.UnderReview? || steps[j].0.Pending?
    requires forall j :: 0 <= j < k ==> Refusal(After(live, steps[..j]).status, steps[j].0, None).None?
    ensures After(live, steps[..k]).activeBeforeReview == Some(live.isActive)
    ensures !After(live, steps[..k]).status.Active?
    ensures forall actor, now ::
      DataFor(After(live, steps[..k]), After(live, steps[..k]), Active, actor, None, now).isActive == live.isActive
    decreases k
  {
    hide Tracks, NoteText;
    var before, step := After(live, steps[..k - 1]), steps[k - 1];
    assert steps[..k][..k - 1] == steps[..k - 1];
    if k > 1 {
      ReapprovalRestores(live, steps, k - 1);
    }
    assert After(live, steps[..k]) == DataFor(before, before, step.0, step.1, None, step.2);
    hide After;
    assert Refusal(before.status, step.0, None).None?;
  }

  /** The store after transitions made one at a time, each reading what it writes over. */
  function After(s: Store, steps: seq<(Status, UserId, Instant)>): Store {
    if steps == [] then s else
      var last := steps[|steps| - 1];
      var before := After(s, steps[..|steps| - 1]);
      DataFor(before, before, last.0, last.1, None, last.2)
  }

  // ---- the service, many calls at once ------------------------------------------------

  type CallId = nat

  /** A call that has read the store and decided, and has yet to write. */
  datatype Decision =
    | Move(seen: Store, to: Status, actor: UserId, note: Option<string>)
    | TakeOver(from: Option<UserId>, admin: UserId)

  datatype World = World(store: Store, audit: seq<Entry>, calls: map<CallId, Decision>)

  datatype Step =
    | Read(c: CallId, to: Status, actor: UserId, note: Option<string>)
    | ReadClaim(c: CallId, admin: UserId)
    | Write(c: CallId, now: Instant)
    | Toggle(isActive: bool)

  /** A read that refuses starts no call; a write whose status has moved changes nothing. */
  ghost predicate Next(s: World, s': World, e: Step) {
    match e
    case Read(c, to, actor, note) =>
      c !in s.calls && Refusal(s.store.status, to, note).None? &&
      s' == s.(calls := s.calls[c := Move(s.store, to, actor, note)])
    case ReadClaim(c, admin) =>
      c !in s.calls && s.store.status.UnderReview? && s' == s.(calls := s.calls[c := TakeOver(s.store.claimedBy, admin)])
    case Write(c, now) =>
      c in s.calls && s' == Written(s, c, now)
    case Toggle(isActive) =>
      s' == s.(store := s.store.(isActive := isActive))
  }

  /** The compare-and-set and its audit entry, in one transaction. */
  function Written(s: World, c: CallId, now: Instant): World
    requires c in s.calls
  {
    var rest := s.(calls := s.calls - {c});
    match s.calls[c]
    case Move(seen, to, actor, note) =>
      if s.store.status != seen.status then rest else
        rest.(store := DataFor(s.store, seen, to, actor, note, now),
              audit := s.audit + [Entry(seen.status, to, actor, NoteText(note), None)])
    case TakeOver(from, admin) =>
      if !s.store.status.UnderReview? then rest else
        rest.(store := s.store.(claimedBy := Some(admin), claimedAt := Some(now)),
              audit := s.audit + [Entry(UnderReview, UnderReview, admin, None, from)])
  }

  ghost predicate Init(s: World) {
    s.store.status.Pending? && Tracks(s.store) && s.audit == [] && s.calls == map[]
  }

  ghost predicate IsRun(run: seq<World>, es: seq<Step>) {
    |run| == |es| + 1 && Init(run[0]) && forall k :: 0 <= k < |es| ==> Next(run[k], run[k + 1], es[k])
  }

  /** A waiting call was allowed by what it read. */
  ghost predicate Decided(d: Decision) {
    d.Move? ==> Refusal(d.seen.status, d.to, d.note).None?
  }

  ghost predicate Inv(s: World) {
    Tracks(s.store) && IsPath(s.audit, s.store.status) && forall c :: c in s.calls ==> Decided(s.calls[c])
  }

  lemma WriteKeeps(s: World, c: CallId, now: Instant)
    requires Inv(s) && c in s.calls
    ensures Inv(Written(s, c, now))
  {
    assert Decided(s.calls[c]);
    match s.calls[c]
    case Move(seen, to, actor, note) =>
      if s.store.status == seen.status {
        TransitionTracks(s.store, seen, to, actor, note, now);
        PathGrows(s.audit, Entry(seen.status, to, actor, NoteText(note), None));
      }
    case TakeOver(from, admin) =>
      if s.store.status.UnderReview? {
        PathGrows(s.audit, Entry(UnderReview, UnderReview, admin, None, from));
      }
  }

  lemma NextInv(s: World, s': World, e: Step)
    requires Inv(s) && Next(s, s', e)
    ensures Inv(s')
  {
    if e.Write? {
      WriteKeeps(s, e.c, e.now);
    }
  }

  lemma {:induction false} RunsKeepInv(run: seq<World>, es: seq<Step>, k: nat)
    requires IsRun(run, es) && k < |run|
    ensures Inv(run[k])
    decreases k
  {
    if k > 0 {
      RunsKeepInv(run, es, k - 1);
      NextInv(run[k - 1], run[k], es[k - 1]);
    }
  }

  /**
   * However reads and writes interleave, the audit log goes by legal moves from PENDING to the
   * current status, and the claim, rejection, note and document columns track that status.
   */
  lemma RunsStayLegal(run: seq<World>, es: seq<Step>, k: nat)
    requires IsRun(run, es) && k < |run|
    ensures var s := run[k].store;
      Tracks(s) &&
      (s.status == UnderReview <==> s.claimedBy != None) && (s.status == UnderReview <==> s.claimedAt != None) &&
      (s.status == Rejected <==> s.rejectedAt != None) &&
      (s.status == Rejected ==> Says(s.rejectionReason) && s.documents == DocumentsRejected) &&
      (s.status == NeedsRevision ==> Says(s.revisionNotes)) && (s.status == Active ==> s.documents == Approved) &&
      (s.activeBeforeReview != None ==> s.status == UnderReview || s.status == Pending)
    ensures var s := run[k];
      (s.audit == [] ==> s.store.status.Pending?) &&
      (s.audit != [] ==> s.audit[|s.audit| - 1].to == s.store.status) &&
      (forall j :: 0 <= j < |s.audit| ==> IsMove(s.audit[j]) && s.audit[j].from == Before(s.audit, j))
  {
    RunsKeepInv(run, es, k);
    var s := run[k];
    forall j | 0 <= j < |s.audit|
      ensures IsMove(s.audit[j]) && s.audit[j].from == Before(s.audit, j)
    {
      PathLinks(s.audit, s.store.status, j);
    }
  }

  /** Of two calls that read the same status and move it elsewhere, only the first to write succeeds. */
  lemma OneDecisionWins(s: World, c: CallId, d: CallId, now: Instant, later: Instant)
    requires Inv(s) && c in s.calls && d in s.calls && c != d
    requires s.calls[c].Move? && s.calls[d].Move? && s.calls[c].seen.status == s.calls[d].seen.status == s.store.status
    ensures var won := Written(s, c, now);
      won.store.status == s.calls[c].to && |won.audit| == |s.audit| + 1 &&
      Written(won, d, later) == won.(calls := won.calls - {d})
  {
    assert Decided(s.calls[c]);
  }

  // ---- what interleaving costs --------------------------------------------------------

  /** The toggle an approval sets from the parked one; with nothing parked the store opens. */
  function Restored(parked: Option<bool>): bool {
    if parked.Some? then parked.value else true
  }

  /** At `k`, call `c` is waiting to write the move to `to` that it decided at `i`. */
  ghost predicate Awaits(es: seq<Step>, i: nat, k: nat, c: CallId, to: Status) {
    i < k <= |es| && es[i].Read? && es[i].c == c && es[i].to == to &&
    forall j :: i < j < k ==> !(es[j].Write? && es[j].c == c)
  }

  /** The move written at `k` was decided at `i`, and the status is again what it was then, so it lands. */
  ghost predicate Lands(run: seq<World>, es: seq<Step>, i: nat, k: nat, c: CallId, to: Status) {
    IsRun(run, es) && k < |es| && Awaits(es, i, k, c, to) && es[k].Write? && es[k].c == c &&
    run[k].store.status == run[i].store.status
  }

  lemma {:induction false} CarriesWhatItRead(run: seq<World>, es: seq<Step>, i: nat, k: nat, c: CallId, to: Status)
    requires IsRun(run, es) && Awaits(es, i, k, c, to)
    ensures c in run[k].calls && run[k].calls[c] == Move(run[i].store, to, es[i].actor, es[i].note)
    ensures Refusal(run[i].store.status, to, es[i].note).None?
    decreases k
  {
    assert Next(run[k - 1], run[k], es[k - 1]);
    if i < k - 1 {
      CarriesWhatItRead(run, es, i, k - 1, c, to);
    }
  }

  /** Every decision that waits to be written was made at some read. */
  lemma {:induction false} DecidedAtARead(run: seq<World>, es: seq<Step>, k: nat, c: CallId)
    requires IsRun(run, es) && k < |run| && c in run[k].calls && run[k].calls[c].Move?
    ensures exists i :: Awaits(es, i, k, c, run[k].calls[c].to)
    decreases k
  {
    assert k > 0 && Next(run[k - 1], run[k], es[k - 1]);
    var to := run[k].calls[c].to;
    if c in run[k - 1].calls {
      DecidedAtARead(run, es, k - 1, c);
      var i :| Awaits(es, i, k - 1, c, to);
      assert Awaits(es, i, k, c, to);
    } else {
      assert Awaits(es, k - 1, k, c, to);
    }
  }

  /** A live store is taken back into review at `p`, decided at `i`, and stays in review or queued up to `k`. */
  ghost predicate TakenBack(run: seq<World>, es: seq<Step>, i: nat, p: nat, c: CallId, k: nat) {
    Lands(run, es, i, p, c, UnderReview) && run[p].store.status.Active? && p < k < |run| &&
    forall j :: p < j <= k ==> run[j].store.status.UnderReview? || run[j].store.status.Pending?
  }

  lemma {:induction false} ParkedThroughout(run: seq<World>, es: seq<Step>, i: nat, p: nat, c: CallId, k: nat)
    requires TakenBack(run, es, i, p, c, k)
    ensures run[k].store.activeBeforeReview == Some(run[i].store.isActive)
    decreases k
  {
    assert Next(run[k - 1], run[k], es[k - 1]);
    if k == p + 1 {
      CarriesWhatItRead(run, es, i, p, c, UnderReview);
    } else {
      ParkedThroughout(run, es, i, p, c, k - 1);
    }
  }

  /**
   * A store taken back into review at `p` and approved again at `k`. The approval restores the
   * parked toggle exactly when what it read at `j` opens the store as the stored one would. The
   * store is as open as when it was taken back exactly when the reads agree with that: the read
   * that parked, when the approval was decided after it; otherwise what the approval itself read.
   */
  lemma ReapprovalRestoresExactly(run: seq<World>, es: seq<Step>, i: nat, p: nat, c: CallId, j: nat, k: nat, d: CallId)
    requires TakenBack(run, es, i, p, c, k) && Lands(run, es, j, k, d, Active)
    ensures run[k + 1].store.status.Active?
    ensures run[k + 1].store.isActive == run[i].store.isActive
      <==> Restored(run[j].store.activeBeforeReview) == Restored(run[k].store.activeBeforeReview)
    ensures run[k + 1].store.isActive == run[p].store.isActive
      <==> (if j < p then Restored(run[j].store.activeBeforeReview) else run[i].store.isActive) == run[p].store.isActive
  {
    CarriesWhatItRead(run, es, j, k, d, Active);
    assert Next(run[k], run[k + 1], es[k]);
    ParkedThroughout(run, es, i, p, c, k);
    if p < j {
      ParkedThroughout(run, es, i, p, c, j);
    }
  }

  /** The audit log only grows, and while it stands still only the toggle can change the store. */
  lemma {:induction false} AuditWitnesses(run: seq<World>, es: seq<Step>, i: nat, k: nat)
    requires IsRun(run, es) && i <= k < |run|
    ensures |run[i].audit| <= |run[k].audit|
    ensures |run[i].audit| == |run[k].audit| ==> run[k].store == run[i].store.(isActive := run[k].store.isActive)
    ensures |run[i].audit| == |run[k].audit| && (forall j :: i <= j < k ==> !es[j].Toggle?) ==> run[k].store == run[i].store
    decreases k
  {
    if i < k {
      AuditWitnesses(run, es, i, k - 1);
      assert Next(run[k - 1], run[k], es[k - 1]);
    }
  }

  /** No transition between either call's read and its write, and no toggle while the first waited, is enough. */
  lemma UnmovedReadsRestore(run: seq<World>, es: seq<Step>, i: nat, p: nat, c: CallId, j: nat, k: nat, d: CallId)
    requires TakenBack(run, es, i, p, c, k) && Lands(run, es, j, k, d, Active)
    requires |run[i].audit| == |run[p].audit| && |run[j].audit| == |run[k].audit|
    requires forall m :: i <= m < p ==> !es[m].Toggle?
    ensures run[k + 1].store.isActive == run[p].store.isActive
  {
    ReapprovalRestoresExactly(run, es, i, p, c, j, k, d);
    AuditWitnesses(run, es, i, p);
    CarriesWhatItRead(run, es, i, p, c, UnderReview);
    assert Next(run[p], run[p + 1], es[p]);
    AuditWitnesses(run, es, p + 1, k);
    if j < p {
      AuditWitnesses(run, es, j, p);
    }
  }

  /** The status alone is compared, so a change and back goes unseen: a closed store is approved open again. */
  lemma StaleToggleIsRestored(store: Store, a: UserId, t: Instant)
    requires store.status.Active? && store.isActive && Tracks(store)
    ensures exists s1, s2, s3, s4, s5: World ::
      Next(World(store, [], map[]), s1, Read(0, UnderReview, a, None)) && Next(s1, s2, Toggle(false)) &&
      Next(s2, s3, Write(0, t)) && Next(s3, s4, Read(1, Active, a, None)) && Next(s4, s5, Write(1, t)) &&
      s5.store.status.Active? && s5.store.isActive && !s2.store.isActive
  {
    var s0 := World(store, [], map[]);
    var s1 := s0.(calls := map[0 := Move(store, UnderReview, a, None)]);
    var s2 := s1.(store := store.(isActive := false));
    var s3 := Written(s2, 0, t);
    var s4 := s3.(calls := s3.calls[1 := Move(s3.store, Active, a, None)]);
    var s5 := Written(s4, 1, t);
    assert Next(s0, s1, Read(0, UnderReview, a, None)) && Next(s1, s2, Toggle(false)) && Next(s2, s3, Write(0, t));
    assert Next(s3, s4, Read(1, Active, a, None)) && Next(s4, s5, Write(1, t));
  }

  /** Two approvals are decided in one review of a live store; the later one is written in the next review. */
  function StaleApproval(a: UserId, t: Instant): seq<Step> {
    [Read(0, UnderReview, a, None), Write(0, t), Read(1, Active, a, None), Write(1, t),
     Read(0, UnderReview, a, None), Write(0, t), Read(1, Active, a, None), Read(2, Active, a, None), Write(2, t),
     Toggle(false), Read(3, UnderReview, a, None), Write(3, t), Write(1, t)]
  }

  lemma ApprovedFirst(a: UserId, t: Instant) returns (s0: World, s1: World, s2: World, s3: World, s4: World)
    ensures Init(s0) && Next(s0, s1, Read(0, UnderReview, a, None)) && Next(s1, s2, Write(0, t))
    ensures Next(s2, s3, Read(1, Active, a, None)) && Next(s3, s4, Write(1, t))
    ensures s4.store.status.Active? && s4.store.isActive && s4.store.activeBeforeReview.None? && s4.calls == map[]
  {
    s0 := World(Store(Pending, false, None, None, None, None, None, None, None, None, None, Submitted), [], map[]);
    s1 := s0.(calls := map[0 := Move(s0.store, UnderReview, a, None)]);
    s2 := Written(s1, 0, t);
    s3 := s2.(calls := s2.calls[1 := Move(s2.store, Active, a, None)]);
    s4 := Written(s3, 1, t);
  }

  lemma ApprovedTwice(s4: World, a: UserId, t: Instant) returns (s5: World, s6: World, s7: World, s8: World, s9: World)
    requires s4.store.status.Active? && s4.store.isActive && s4.calls == map[]
    ensures Next(s4, s5, Read(0, UnderReview, a, None)) && Next(s5, s6, Write(0, t)) && Next(s6, s7, Read(1, Active, a, None))
    ensures Next(s7, s8, Read(2, Active, a, None)) && Next(s8, s9, Write(2, t))
    ensures s9.store.status.Active? && s9.store.isActive && s9.calls.Keys == {1} && s9.calls[1].Move?
    ensures s9.calls[1].to.Active? && s9.calls[1].seen.status.UnderReview? && s9.calls[1].seen.activeBeforeReview == Some(true)
  {
    s5 := s4.(calls := s4.calls[0 := Move(s4.store, UnderReview, a, None)]);
    s6 := Written(s5, 0, t);
    s7 := s6.(calls := s6.calls[1 := Move(s6.store, Active, a, None)]);
    s8 := s7.(calls := s7.calls[2 := Move(s7.store, Active, a, None)]);
    s9 := Written(s8, 2, t);
  }

  lemma ClosedThenApproved(s9: World, a: UserId, t: Instant) returns (s10: World, s11: World, s12: World, s13: World)
    requires s9.store.status.Active? && s9.calls.Keys == {1} && s9.calls[1].Move?
    requires s9.calls[1].to.Active? && s9.calls[1].seen.status.UnderReview? && s9.calls[1].seen.activeBeforeReview == Some(true)
    ensures Next(s9, s10, Toggle(false)) && Next(s10, s11, Read(3, UnderReview, a, None))
    ensures Next(s11, s12, Write(3, t)) && Next(s12, s13, Write(1, t))
    ensures s11.store.status.Active? && !s11.store.isActive
    ensures s12.store.status.UnderReview? && s12.store.activeBeforeReview == Some(false)
    ensures s13.store.status.Active? && s13.store.isActive
  {
    s10 := s9.(store := s9.store.(isActive := false));
    s11 := s10.(calls := s10.calls[3 := Move(s10.store, UnderReview, a, None)]);
    s12 := Written(s11, 3, t);
    s13 := Written(s12, 1, t);
  }

  /** The toggle parked is the current one, and still a closed store is approved open: the approval was decided a review ago. */
  lemma StaleApprovalOpensClosed(a: UserId, t: Instant) returns (run: seq<World>)
    ensures IsRun(run, StaleApproval(a, t))
    ensures run[11].store.status.Active? && !run[11].store.isActive
    ensures run[12].store.status.UnderReview? && run[12].store.activeBeforeReview == Some(false)
    ensures run[13].store.status.Active? && run[13].store.isActive
  {
    var s0, s1, s2, s3, s4 := ApprovedFirst(a, t);
    var s5, s6, s7, s8, s9 := ApprovedTwice(s4, a, t);
    var s10, s11, s12, s13 := ClosedThenApproved(s9, a, t);
    hide Next, Init, Tracks, IsPath;
    run := [s0, s1, s2, s3, s4, s5, s6, s7, s8, s9, s10, s11, s12, s13];
  }
}
