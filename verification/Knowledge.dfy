/**
  Records of skills and memories: creation, update, archiving, deletion, supersession, and the
  audit log (src/knowledge/lifecycle.ts, src/knowledge/sidecar-queries.ts). Columns of the
  record table and its side tables make one row; every mutation is one transaction.
 */
module Knowledge {
  import opened Common

  datatype Kind = Skill | Memory
  datatype Scope = Project | Stage | Session
  datatype Status = Active | Superseded | Archived | Expired

  /**
    `title` is a skill's name or a memory's topic key; `jsonStatus` is the status in the row's
    JSON copy of the record, which superseding does not rewrite.
   */
  datatype Row = Row(
    kind: Kind,
    scope: Scope,
    scopeRef: Option<string>,
    title: string,
    status: Status,
    jsonStatus: Status,
    body: string,
    supersedes: Option<string>,
    supersededBy: Option<string>)

  type Rows = map<string, Row>

  datatype AuditOp = CreateOp | UpdateOp | ArchiveOp | DeleteOp | SupersedeOp

  /** An audit entry with the record's status before and after, where the operation logs it. */
  datatype Audit = Audit(id: string, op: AuditOp, before: Option<Status>, after: Option<Status>)

  datatype Error =
    | NoRuntimeLock | EmptyReason | InvalidScopeRef | SecretFound | BlockedPath | InvalidRecord
    | NotFound | NameCollision | TopicCollision | InvalidSupersedeScope | InvalidSupersedeTarget

  datatype Result = Done | Refused(error: Error)

  /**
    Verdicts from outside. `noSecrets` and `noBlockedPath` are about the body, if one is given (and
    for a new record about the reason); the description of a skill is looked at by itself.
   */
  datatype Checks = Checks(lockHeld: bool, reasonGiven: bool, noSecrets: bool, noBlockedPath: bool,
                           descriptionClean: bool, fitsSchema: bool)

  datatype Draft = Draft(kind: Kind, scope: Scope, scopeRef: Option<string>, title: string, body: string)

  // ------------------------------------------------------------ the links

  predicate IsAllowedSupersedeScopePair(old_: Scope, new_: Scope) {
    match old_
    case Project => new_.Project?
    case Stage => new_.Project? || new_.Stage?
    case Session => new_.Project? || new_.Session?
  }

  predicate ScopeRefFits(scope: Scope, scopeRef: Option<string>) {
    scope.Project? || (scopeRef.Some? && scopeRef.value != "")
  }

  function AsArchived(r: Row): Row {
    r.(status := Archived, jsonStatus := Archived)
  }

  function AsSuperseded(r: Row, newId: string): Row {
    r.(status := Superseded, supersededBy := Some(newId))
  }

  /** A new row that supersedes an old one. */
  function Superseding(rows: Rows, oldId: string, newId: string, row: Row): Rows
    requires oldId in rows
  {
    rows[newId := row][oldId := AsSuperseded(rows[oldId], newId)]
  }

  /** The status the JSON copy shows: a superseded record still reads active there. */
  function JsonStatusOf(status: Status): Status {
    if status.Superseded? then Active else status
  }

  /** The birth order of every id ever used, deleted ones included. */
  datatype Births = Births(rank: map<string, nat>, next: nat)

  ghost predicate SaneRow(rows: Rows, births: Births, id: string)
    requires id in rows
  {
    var r := rows[id];
    && id in births.rank
    && (r.status.Active? ==> r.supersededBy.None?)
    && (r.status.Superseded? ==> r.supersededBy.Some?)
    && r.jsonStatus == JsonStatusOf(r.status)
    && ScopeRefFits(r.scope, r.scopeRef)
    && match r.supersededBy
       case None => true
       case Some(s) =>
         && s in births.rank && births.rank[id] < births.rank[s]
         && (s in rows ==>
             && rows[s].supersedes == Some(id) && rows[s].kind == r.kind
             && IsAllowedSupersedeScopePair(r.scope, rows[s].scope))
  }

  /**
    What every run keeps: `superseded_by` leads to a younger record of the same kind and of the
    same scope or the project's, no two records share a successor, an active record has none.
   */
  ghost predicate Linked(rows: Rows, births: Births) {
    && (forall id :: id in births.rank ==> births.rank[id] < births.next)
    && (forall id :: id in rows ==> SaneRow(rows, births, id))
    && (forall a, b :: a in rows && b in rows && a != b && rows[a].supersededBy.Some? ==>
        rows[a].supersededBy != rows[b].supersededBy)
  }

  function Born(births: Births, id: string): Births {
    Births(births.rank[id := births.next], births.next + 1)
  }

  lemma {:induction false} CreateKeepsLinks(rows: Rows, births: Births, id: string, row: Row)
    requires Linked(rows, births) && id !in births.rank
    requires row.status.Active? && row.jsonStatus.Active?
    requires row.supersededBy.None? && ScopeRefFits(row.scope, row.scopeRef)
    ensures Linked(rows[id := row], Born(births, id))
  {
    var next := rows[id := row];
    forall x | x in next
      ensures SaneRow(next, Born(births, id), x)
    {
      if x != id {
        assert SaneRow(rows, births, x);
      }
    }
  }

  /** The new row names its predecessor, the predecessor names it. */
  lemma {:induction false} SupersedeKeepsLinks(rows: Rows, births: Births, oldId: string, newId: string, row: Row)
    requires Linked(rows, births) && newId !in births.rank
    requires oldId in rows && rows[oldId].status.Active? && rows[oldId].kind == row.kind
    requires IsAllowedSupersedeScopePair(rows[oldId].scope, row.scope) && ScopeRefFits(row.scope, row.scopeRef)
    requires row.status.Active? && row.jsonStatus.Active? && row.supersededBy.None? && row.supersedes == Some(oldId)
    ensures Linked(Superseding(rows, oldId, newId, row), Born(births, newId))
  {
    assert SaneRow(rows, births, oldId);
    var next := Superseding(rows, oldId, newId, row);
    forall x | x in next
      ensures SaneRow(next, Born(births, newId), x)
    {
      if x != newId && x != oldId {
        assert SaneRow(rows, births, x);
      }
    }
    forall a, b | a in next && b in next && a != b && next[a].supersededBy.Some?
      ensures next[a].supersededBy != next[b].supersededBy
    {
      if a in rows {
        assert SaneRow(rows, births, a);
      }
      if b in rows {
        assert SaneRow(rows, births, b);
      }
    }
  }

  /** An update or an archiving of a row. */
  predicate IsRewrite(was: Row, now: Row) {
    now == was.(body := now.body) || now == AsArchived(was)
  }

  lemma {:induction false} RewriteKeepsLinks(rows: Rows, births: Births, id: string, row: Row)
    requires Linked(rows, births) && id in rows && IsRewrite(rows[id], row)
    ensures Linked(rows[id := row], births)
  {
    var next := rows[id := row];
    forall x | x in next
      ensures SaneRow(next, births, x)
    {
      assert SaneRow(rows, births, x);
    }
  }

  lemma {:induction false} DeleteKeepsLinks(rows: Rows, births: Births, id: string)
    requires Linked(rows, births)
    ensures Linked(rows - {id}, births)
  {
    forall x | x in rows - {id}
      ensures SaneRow(rows - {id}, births, x)
    {
      assert SaneRow(rows, births, x);
    }
  }

  // ---------------------------------------------------------- chain heads

  /** Where the successors of a record end. */
  ghost function Head(rows: Rows, births: Births, id: string): (head: string)
    requires Linked(rows, births) && id in rows
    ensures head in rows
    decreases births.next - births.rank[id]
  {
    assert SaneRow(rows, births, id);
    match rows[id].supersededBy
    case None => id
    case Some(s) =>
      if s in rows then
        assert SaneRow(rows, births, s);
        Head(rows, births, s)
      else id
  }

  /** The head has no present successor, the kind is the same, the scope the same or the project's. */
  lemma {:induction false} HeadFacts(rows: Rows, births: Births, id: string)
    requires Linked(rows, births) && id in rows
    ensures var h := Head(rows, births, id);
            && (rows[h].supersededBy.None? || rows[h].supersededBy.value !in rows)
            && rows[h].kind == rows[id].kind
            && (rows[h].scope == rows[id].scope || rows[h].scope.Project?)
            && births.rank[id] <= births.rank[h] && (births.rank[id] == births.rank[h] ==> h == id)
    decreases births.next - births.rank[id]
  {
    assert SaneRow(rows, births, id);
    match rows[id].supersededBy
    case None =>
    case Some(s) =>
      if s in rows {
        assert SaneRow(rows, births, s);
        HeadFacts(rows, births, s);
      }
  }

  ghost predicate IsChain(rows: Rows, chain: seq<string>) {
    && (forall i :: 0 <= i < |chain| ==> chain[i] in rows)
    && forall i, j :: 0 <= i < j < |chain| && j == i + 1 ==> rows[chain[i]].supersededBy == Some(chain[j])
  }

  /** `superseded_by` is acyclic: a chain never comes back to where it has been. */
  lemma {:induction false} ChainsNeverReturn(rows: Rows, births: Births, chain: seq<string>, i: nat, j: nat)
    requires Linked(rows, births) && IsChain(rows, chain) && i < j < |chain|
    ensures births.rank[chain[i]] < births.rank[chain[j]] && chain[i] != chain[j]
  {
    if i + 1 < j {
      ChainsNeverReturn(rows, births, chain, i, j - 1);
    }
    assert rows[chain[j - 1]].supersededBy == Some(chain[j]);
    assert SaneRow(rows, births, chain[j - 1]);
  }

  // -------------------------------------------------------- names in a scope

  datatype Place = Place(kind: Kind, scope: Scope, scopeRef: Option<string>, title: string)

  function PlaceOf(r: Row): Place {
    Place(r.kind, r.scope, r.scopeRef, r.title)
  }

  ghost predicate Taken(rows: Rows, place: Place) {
    exists id :: id in rows && rows[id].status.Active? && PlaceOf(rows[id]) == place
  }

  /** At most one active record for a name in a scope. */
  ghost predicate UniqueNames(rows: Rows) {
    forall a, b :: a in rows && b in rows && a != b && rows[a].status.Active? && rows[b].status.Active? ==>
      PlaceOf(rows[a]) != PlaceOf(rows[b])
  }

  ghost predicate TakenByAnother(rows: Rows, place: Place, but: string) {
    exists id :: id in rows && id != but && rows[id].status.Active? && PlaceOf(rows[id]) == place
  }

  /**
    Supersession checks no name, and keeps names unique exactly when no other active record
    than the one superseded has the new record's.
   */
  lemma {:induction false} SupersedeKeepsNamesIff(rows: Rows, oldId: string, newId: string, row: Row)
    requires UniqueNames(rows) && oldId in rows && newId !in rows && row.status.Active?
    ensures UniqueNames(Superseding(rows, oldId, newId, row)) <==>
              !TakenByAnother(rows, PlaceOf(row), oldId)
  {
    var next := Superseding(rows, oldId, newId, row);
    if TakenByAnother(rows, PlaceOf(row), oldId) {
      var id :| id in rows && id != oldId && rows[id].status.Active? && PlaceOf(rows[id]) == PlaceOf(row);
      assert next[id] == rows[id] && next[newId] == row;
    }
  }

  /** Two project skills "a" and "b"; superseding "b" by another "a" leaves two active "a". */
  lemma {:induction false} SupersedeCanDuplicateAName() returns (rows: Rows, row: Row)
    ensures UniqueNames(rows) && "2" in rows && rows["2"].status.Active? && "3" !in rows && row.status.Active?
    ensures row.kind == rows["2"].kind && IsAllowedSupersedeScopePair(rows["2"].scope, row.scope)
    ensures !UniqueNames(Superseding(rows, "2", "3", row))
  {
    var a := Row(Skill, Project, None, "a", Active, Active, "", None, None);
    rows := map["1" := a, "2" := a.(title := "b")];
    row := a.(supersedes := Some("2"));
    assert rows["1"] == a && PlaceOf(a) == PlaceOf(row);
    assert TakenByAnother(rows, PlaceOf(row), "2");
    SupersedeKeepsNamesIff(rows, "2", "3", row);
  }

  lemma {:induction false} CreateKeepsNames(rows: Rows, id: string, row: Row)
    requires UniqueNames(rows) && id !in rows && !Taken(rows, PlaceOf(row))
    ensures UniqueNames(rows[id := row])
  {
  }

  // -------------------------------------------------------------- the audit

  /** The status a record should have according to the log; None when it should not exist. */
  ghost function StatusOf(log: seq<Audit>, id: string): Option<Status> {
    if log == [] then None
    else
      var last := log[|log| - 1];
      if last.id != id || last.op.UpdateOp? then StatusOf(log[..|log| - 1], id) else last.after
  }

  /** Replaying the log gives every record's status. */
  ghost predicate LogAgrees(rows: Rows, log: seq<Audit>) {
    forall id :: StatusOf(log, id) == if id in rows then Some(rows[id].status) else None
  }

  lemma {:induction false} StatusOfSnoc(log: seq<Audit>, e: Audit, id: string)
    ensures StatusOf(log + [e], id) == if e.id != id || e.op.UpdateOp? then StatusOf(log, id) else e.after
  {
    assert (log + [e])[..|log|] == log;
  }

  lemma {:induction false} LogOneMore(rows: Rows, log: seq<Audit>, next: Rows, e: Audit)
    requires LogAgrees(rows, log)
    requires next - {e.id} == rows - {e.id}
    requires if e.op.UpdateOp? then e.id in rows && e.id in next && next[e.id].status == rows[e.id].status
             else e.after == if e.id in next then Some(next[e.id].status) else None
    ensures LogAgrees(next, log + [e])
  {
    forall id
      ensures StatusOf(log + [e], id) == if id in next then Some(next[id].status) else None
    {
      StatusOfSnoc(log, e, id);
      if id != e.id {
        assert id in next <==> id in next - {e.id};
        assert id in rows <==> id in rows - {e.id};
      }
    }
  }

  // ---------------------------------------------------------- how rows evolve

  /**
    What may become of the records of a moment: they may go, and one that is not active never
    is again; identity, scope, name and links already set do not change.
   */
  ghost predicate Evolves(births: Births, rows: Rows, next: Rows) {
    forall id :: id in births.rank && id in next ==>
      && id in rows
      && PlaceOf(next[id]) == PlaceOf(rows[id]) && next[id].supersedes == rows[id].supersedes
      && (rows[id].supersededBy.Some? ==> next[id].supersededBy == rows[id].supersededBy)
      && (!rows[id].status.Active? ==> !next[id].status.Active?)
  }

  /** Without a new record no name becomes shared. */
  lemma {:induction false} NamesStayUnique(births: Births, rows: Rows, next: Rows)
    requires UniqueNames(rows) && Evolves(births, rows, next) && next.Keys <= births.rank.Keys
    ensures UniqueNames(next)
  {
  }

  lemma {:induction false} ArchivingEvolves(births: Births, was: Rows, now: Rows, ids: set<string>)
    requires ArchivedExactly(was, now, ids)
    ensures Evolves(births, was, now)
  {
  }

  ghost predicate ArchivedExactly(was: Rows, now: Rows, ids: set<string>) {
    && now.Keys == was.Keys
    && forall id :: id in now ==> now[id] == if id in ids then AsArchived(was[id]) else was[id]
  }

  /** The record is active in a scope. */
  ghost predicate LivesIn(r: Row, scope: Scope, scopeRef: string) {
    r.status == Active && r.scope == scope && r.scopeRef == Some(scopeRef)
  }

  lemma {:induction false} BothArchived(was: Rows, mid: Rows, now: Rows, skills: set<string>, memories: set<string>,
                                        scope: Scope, scopeRef: string)
    requires ArchivedExactly(was, mid, skills) && ArchivedExactly(mid, now, memories)
    requires forall id :: id in skills <==> id in was && was[id].kind == Skill && LivesIn(was[id], scope, scopeRef)
    requires forall id :: id in memories <==> id in mid && mid[id].kind == Memory && LivesIn(mid[id], scope, scopeRef)
    ensures now.Keys == was.Keys
    ensures forall id :: id in now ==>
              now[id] == if LivesIn(was[id], scope, scopeRef) then was[id].(status := Archived, jsonStatus := Archived)
                         else was[id]
  {
    forall id | id in now
      ensures now[id] == if LivesIn(was[id], scope, scopeRef)
                         then was[id].(status := Archived, jsonStatus := Archived) else was[id]
    {
      assert was[id].kind == Skill || was[id].kind == Memory;
    }
  }

  /** One entry for each of these records: it was active and is archived. */
  ghost predicate LoggedArchived(was: seq<Audit>, now: seq<Audit>, ids: set<string>) {
    && was <= now && |now| == |was| + |ids|
    && (forall k :: |was| <= k < |now| ==>
          now[k] == Audit(now[k].id, ArchiveOp, Some(Active), Some(Archived)) && now[k].id in ids)
    && forall j, k :: |was| <= j < k < |now| ==> now[j].id != now[k].id
  }

  lemma {:induction false} LogArchived(was: seq<Audit>, now: seq<Audit>, ids: set<string>, id: string)
    requires LoggedArchived(was, now, ids) && id !in ids
    ensures LoggedArchived(was, now + [Audit(id, ArchiveOp, Some(Active), Some(Archived))], ids + {id})
  {
  }

  lemma {:induction false} ArchiveOneMore(was: Rows, now: Rows, done: set<string>, id: string)
    requires ArchivedExactly(was, now, done) && id in now
    ensures ArchivedExactly(was, now[id := AsArchived(now[id])], done + {id})
  {
  }

  lemma {:induction false} EvolvesFurther(b0: Births, r0: Rows, b1: Births, r1: Rows, r2: Rows)
    requires Evolves(b0, r0, r1) && Evolves(b1, r1, r2) && b0.rank.Keys <= b1.rank.Keys
    ensures Evolves(b0, r0, r2)
  {
  }

  // -------------------------------------------------------------- the store

  datatype Op =
    | CreateRecord(draft: Draft, checks: Checks, id: string)
    | UpdateRecord(kind: Kind, id: string, body: Option<string>, checks: Checks)
    | ArchiveRecord(kind: Kind, id: string, checks: Checks)
    | DeleteRecord(kind: Kind, id: string, checks: Checks)
    | SupersedeRecord(oldId: string, draft: Draft, checks: Checks, id: string)
    | ArchiveScope(scope: Scope, scopeRef: string, lockHeld: bool)

  /** The id an operation draws for a new record. */
  function DrawnId(op: Op): set<string> {
    match op
    case CreateRecord(_, _, id) => {id}
    case SupersedeRecord(_, _, _, id) => {id}
    case _ => {}
  }

  /** Ids are never drawn twice. */
  ghost predicate FreshIds(ops: seq<Op>, used: set<string>) {
    && (forall i :: 0 <= i < |ops| ==> DrawnId(ops[i]) !! used)
    && (forall i, j :: 0 <= i < j < |ops| ==> DrawnId(ops[i]) !! DrawnId(ops[j]))
  }

  /** What is refused before the transaction, in the order of the checks. */
  function Preflight(checks: Checks): Option<Error> {
    if !checks.lockHeld then Some(NoRuntimeLock)
    else if !checks.reasonGiven then Some(EmptyReason)
    else None
  }

  function DraftPreflight(draft: Draft, checks: Checks): Option<Error> {
    if Preflight(checks).Some? then Preflight(checks)
    else if !ScopeRefFits(draft.scope, draft.scopeRef) then Some(InvalidScopeRef)
    else if !checks.noSecrets || !checks.descriptionClean then Some(SecretFound)
    else if !checks.noBlockedPath then Some(BlockedPath)
    else None
  }

  /** An update looks at the body first, secrets and paths, and then at the description. */
  function UpdatePreflight(checks: Checks): Option<Error> {
    if Preflight(checks).Some? then Preflight(checks)
    else if !checks.noSecrets then Some(SecretFound)
    else if !checks.noBlockedPath then Some(BlockedPath)
    else if !checks.descriptionClean then Some(SecretFound)
    else None
  }

  /** A new record is held back exactly by the first fault of this list. */
  lemma {:induction false} DraftFaults(draft: Draft, checks: Checks)
    ensures var scopeFits := draft.scope.Project? || (draft.scopeRef.Some? && draft.scopeRef.value != "");
            var clean := checks.noSecrets && checks.descriptionClean;
            var started := checks.lockHeld && checks.reasonGiven;
            var fault := DraftPreflight(draft, checks);
            && (fault == Some(NoRuntimeLock) <==> !checks.lockHeld)
            && (fault == Some(EmptyReason) <==> checks.lockHeld && !checks.reasonGiven)
            && (fault == Some(InvalidScopeRef) <==> started && !scopeFits)
            && (fault == Some(SecretFound) <==> started && scopeFits && !clean)
            && (fault == Some(BlockedPath) <==> started && scopeFits && clean && !checks.noBlockedPath)
            && (fault == None <==> started && scopeFits && clean && checks.noBlockedPath)
  {
  }

  /** An update is held back exactly by the first fault of this list, the body's before the description's. */
  lemma {:induction false} UpdateFaults(checks: Checks)
    ensures var started := checks.lockHeld && checks.reasonGiven;
            var fault := UpdatePreflight(checks);
            && (fault == Some(NoRuntimeLock) <==> !checks.lockHeld)
            && (fault == Some(EmptyReason) <==> checks.lockHeld && !checks.reasonGiven)
            && (fault == Some(BlockedPath) <==> started && checks.noSecrets && !checks.noBlockedPath)
            && (fault == Some(SecretFound) <==>
                  started && (!checks.noSecrets || (checks.noBlockedPath && !checks.descriptionClean)))
            && (fault == None <==> started && checks.noSecrets && checks.noBlockedPath && checks.descriptionClean)
            && (Preflight(checks) == None <==> started)
            && (Preflight(checks) == Some(NoRuntimeLock) <==> !checks.lockHeld)
            && (Preflight(checks) == Some(EmptyReason) <==> checks.lockHeld && !checks.reasonGiven)
  {
  }

  /** What every record carried out has met, and what it found in the rows. */
  ghost predicate Admitted(op: Op, was: Rows) {
    match op
    case CreateRecord(draft, checks, _) => CleanDraft(draft, checks) && !HeldAlready(was, draft)
    case SupersedeRecord(oldId, draft, checks, _) => CleanDraft(draft, checks) && MayReplace(was, oldId, draft)
    case UpdateRecord(kind, id, _, checks) =>
      && checks.lockHeld && checks.reasonGiven && checks.noSecrets && checks.noBlockedPath && checks.descriptionClean
      && checks.fitsSchema && id in was && was[id].kind == kind
    case ArchiveRecord(kind, id, checks) => checks.lockHeld && checks.reasonGiven && id in was && was[id].kind == kind
    case DeleteRecord(kind, id, checks) => checks.lockHeld && checks.reasonGiven && id in was && was[id].kind == kind
    case ArchiveScope(_, _, lockHeld) => lockHeld
  }

  /** Every verdict on a new record is favourable. */
  ghost predicate CleanDraft(draft: Draft, checks: Checks) {
    && checks.lockHeld && checks.reasonGiven
    && (draft.scope == Project || (draft.scopeRef.Some? && draft.scopeRef.value != ""))
    && checks.noSecrets && checks.descriptionClean && checks.noBlockedPath && checks.fitsSchema
  }

  /** An active record of the draft's kind has its title in its very scope. */
  ghost predicate HeldAlready(rows: Rows, draft: Draft) {
    exists id :: id in rows && rows[id].status == Active && rows[id].kind == draft.kind &&
      rows[id].scope == draft.scope && rows[id].scopeRef == draft.scopeRef && rows[id].title == draft.title
  }

  /** The record to replace is active, of the same kind, and of the same scope or being lifted to the project. */
  ghost predicate MayReplace(rows: Rows, oldId: string, draft: Draft) {
    && oldId in rows && rows[oldId].kind == draft.kind && rows[oldId].status == Active
    && (draft.scope == Project || draft.scope == rows[oldId].scope)
  }

  lemma {:induction false} TakenMeans(rows: Rows, draft: Draft, supersedes: Option<string>)
    ensures Taken(rows, PlaceOf(RowOf(draft, supersedes))) <==> HeldAlready(rows, draft)
  {
    if HeldAlready(rows, draft) {
      var id :| id in rows && rows[id].status == Active && rows[id].kind == draft.kind &&
        rows[id].scope == draft.scope && rows[id].scopeRef == draft.scopeRef && rows[id].title == draft.title;
      assert PlaceOf(rows[id]) == PlaceOf(RowOf(draft, supersedes));
    }
  }

  ghost predicate Holds(rows: Rows, id: string, kind: Kind) {
    id in rows && rows[id].kind == kind
  }

  function RowOf(draft: Draft, supersedes: Option<string>): Row {
    Row(draft.kind, draft.scope, draft.scopeRef, draft.title, Active, Active, draft.body, supersedes, None)
  }

  /** What an operation that was carried out did to the rows, as far as names go. */
  ghost predicate Effect(op: Op, was: Rows, now: Rows, births: Births) {
    match op
    case CreateRecord(draft, _, id) =>
      id !in was && !Taken(was, PlaceOf(RowOf(draft, None))) && now == was[id := RowOf(draft, None)]
    case SupersedeRecord(oldId, draft, _, id) =>
      id !in was && oldId in was &&
      now == Superseding(was, oldId, id, RowOf(draft, Some(oldId)))
    case _ => Evolves(births, was, now) && now.Keys <= births.rank.Keys
  }

  /** One operation keeps active names unique unless it supersedes into a name another record holds. */
  lemma {:induction false} NamesAfter(op: Op, was: Rows, now: Rows, births: Births)
    requires UniqueNames(was) && Effect(op, was, now, births)
    ensures UniqueNames(now) <==> !(op.SupersedeRecord?
                                    && TakenByAnother(was, PlaceOf(RowOf(op.draft, Some(op.oldId))), op.oldId))
  {
    match op
    case CreateRecord(draft, _, id) => CreateKeepsNames(was, id, RowOf(draft, None));
    case SupersedeRecord(oldId, draft, _, id) => SupersedeKeepsNamesIff(was, oldId, id, RowOf(draft, Some(oldId)));
    case _ => NamesStayUnique(births, was, now);
  }

  /** A supersession carried out that gives the new record a name another active record has. */
  ghost predicate TakesHeldName(op: Op, result: Result, was: Rows) {
    && op.SupersedeRecord? && result.Done?
    && TakenByAnother(was, PlaceOf(RowOf(op.draft, Some(op.oldId))), op.oldId)
  }

  /** The rows before, between and after a series of operations, each as its operation leaves them. */
  ghost predicate Trace(ops: seq<Op>, results: seq<Result>, states: seq<Rows>, born: seq<Births>) {
    && |results| == |ops| && |states| == |born| == |ops| + 1
    && forall i, j :: 0 <= i < |ops| && j == i + 1 ==> Step(ops[i], results[i], states[i], states[j], born[j])
  }

  /** An operation is carried out exactly when it is admitted, with its effect, or else changes nothing. */
  ghost predicate Step(op: Op, result: Result, was: Rows, now: Rows, births: Births) {
    && (result.Done? <==> Admitted(op, was))
    && if result.Done? then Effect(op, was, now, births) else now == was
  }

  /** Active names stay unique throughout exactly when no supersession takes a held one. */
  lemma {:induction false} NamesOverRun(ops: seq<Op>, results: seq<Result>, states: seq<Rows>, born: seq<Births>)
    requires Trace(ops, results, states, born) && UniqueNames(states[0])
    ensures (forall i :: 0 <= i < |states| ==> UniqueNames(states[i])) <==>
              forall i :: 0 <= i < |ops| ==> !TakesHeldName(ops[i], results[i], states[i])
  {
    var n := 0;
    while n < |ops| && UniqueNames(states[n + 1])
      invariant n <= |ops|
      invariant forall i :: 0 <= i <= n ==> UniqueNames(states[i])
      invariant forall i :: 0 <= i < n ==> !TakesHeldName(ops[i], results[i], states[i])
    {
      NamesOverStep(ops[n], results[n], states[n], states[n + 1], born[n + 1]);
      n := n + 1;
    }
    if n < |ops| {
      NamesOverStep(ops[n], results[n], states[n], states[n + 1], born[n + 1]);
    }
  }

  lemma {:induction false} NamesOverStep(op: Op, result: Result, was: Rows, now: Rows, births: Births)
    requires UniqueNames(was) && Step(op, result, was, now, births)
    ensures UniqueNames(now) <==> !TakesHeldName(op, result, was)
  {
    if result.Done? {
      NamesAfter(op, was, now, births);
    }
  }

  class KnowledgeStore {
    var rows: Rows
    var log: seq<Audit>
    ghost var births: Births

    constructor ()
      ensures Valid() && rows == map[] && log == [] && births.rank == map[]
    {
      rows, log, births := map[], [], Births(map[], 0);
    }

    ghost predicate Valid()
      reads this
    {
      Linked(rows, births) && LogAgrees(rows, log)
    }

    // ---- row primitives

    method PutRecord(id: string, row: Row, entry: Audit)
      modifies this`rows, this`log
      ensures rows == old(rows)[id := row] && log == old(log) + [entry]
    {
      rows := rows[id := row];
      log := log + [entry];
    }

    method MarkSuperseded(oldId: string, newId: string, entry: Audit)
      requires oldId in rows
      modifies this`rows, this`log
      ensures rows == old(rows)[oldId := AsSuperseded(old(rows)[oldId], newId)]
      ensures log == old(log) + [entry]
    {
      rows := rows[oldId := AsSuperseded(rows[oldId], newId)];
      log := log + [entry];
    }

    method FindActive(place: Place) returns (id: Option<string>)
      ensures id.Some? <==> Taken(rows, place)
      ensures id.Some? ==> id.value in rows && rows[id.value].status.Active? && PlaceOf(rows[id.value]) == place
    {
      if found :| found in rows && rows[found].status.Active? && PlaceOf(rows[found]) == place {
        return Some(found);
      }
      return None;
    }

    // ---- lifecycle

    method Create(draft: Draft, checks: Checks, id: string) returns (result: Result)
      requires Valid() && id !in births.rank
      modifies this
      ensures Valid() && Evolves(old(births), old(rows), rows)
      ensures result.Refused? ==> rows == old(rows) && log == old(log) && births == old(births)
      ensures result.Done? ==>
                && rows == old(rows)[id := Row(draft.kind, draft.scope, draft.scopeRef, draft.title, Active, Active,
                                               draft.body, None, None)]
                && rows == old(rows)[id := RowOf(draft, None)]
                && log == old(log) + [Audit(id, CreateOp, None, Some(Active))]
                && births == Born(old(births), id)
      ensures result == if DraftPreflight(draft, checks).Some? then Refused(DraftPreflight(draft, checks).value)
                        else if !checks.fitsSchema then Refused(InvalidRecord)
                        else if Taken(old(rows), PlaceOf(RowOf(draft, None)))
                            then Refused(if draft.kind.Skill? then NameCollision else TopicCollision)
                        else Done
      ensures result.Done? <==> CleanDraft(draft, checks) && !HeldAlready(old(rows), draft)
      ensures result == Refused(NameCollision) <==>
                draft.kind == Skill && CleanDraft(draft, checks) && HeldAlready(old(rows), draft)
      ensures result == Refused(TopicCollision) <==>
                draft.kind == Memory && CleanDraft(draft, checks) && HeldAlready(old(rows), draft)
    {
      DraftFaults(draft, checks);
      TakenMeans(rows, draft, None);
      var refusal := DraftPreflight(draft, checks);
      if refusal.Some? {
        return Refused(refusal.value);
      }
      if !checks.fitsSchema {
        return Refused(InvalidRecord);
      }
      var row := RowOf(draft, None);
      var dup := FindActive(PlaceOf(row));
      if dup.Some? {
        return Refused(if draft.kind.Skill? then NameCollision else TopicCollision);
      }
      var entry := Audit(id, CreateOp, None, Some(Active));
      NewIdIsNoRow(id);
      CreateKeepsLinks(rows, births, id, row);
      LogOneMore(rows, log, rows[id := row], entry);
      PutRecord(id, row, entry);
      births := Born(births, id);
      return Done;
    }

    lemma {:induction false} NewIdIsNoRow(id: string)
      requires Valid() && id !in births.rank
      ensures id !in rows
    {
      assert id in rows ==> SaneRow(rows, births, id);
    }

    /** Rewrites a present record: a new body, or archived. */
    method Rewrite(id: string, row: Row, entry: Audit)
      requires Valid() && id in rows && entry.id == id && IsRewrite(rows[id], row)
      requires if entry.op.UpdateOp? then row.status == rows[id].status
               else row.status.Archived? && entry.after == Some(Archived)
      modifies this`rows, this`log
      ensures Valid() && Evolves(births, old(rows), rows)
      ensures rows == old(rows)[id := row] && log == old(log) + [entry]
    {
      RewriteKeepsLinks(rows, births, id, row);
      LogOneMore(rows, log, rows[id := row], entry);
      PutRecord(id, row, entry);
    }

    method Update(kind: Kind, id: string, body: Option<string>, checks: Checks) returns (result: Result)
      requires Valid()
      modifies this`rows, this`log
      ensures Valid() && Evolves(births, old(rows), rows)
      ensures result.Refused? ==> rows == old(rows) && log == old(log)
      ensures result.Done? ==>
                && Holds(old(rows), id, kind)
                && (var text := if body.Some? then body.value else old(rows)[id].body;
                    rows == old(rows)[id := old(rows)[id].(body := text)])
                && log == old(log) + [Audit(id, UpdateOp, None, None)]
      ensures result == if UpdatePreflight(checks).Some? then Refused(UpdatePreflight(checks).value)
                        else if !Holds(old(rows), id, kind) then Refused(NotFound)
                        else if !checks.fitsSchema then Refused(InvalidRecord)
                        else Done
      ensures result.Done? <==> Admitted(UpdateRecord(kind, id, body, checks), old(rows))
    {
      UpdateFaults(checks);
      var refusal := UpdatePreflight(checks);
      if refusal.Some? {
        return Refused(refusal.value);
      }
      if id !in rows || rows[id].kind != kind {
        return Refused(NotFound);
      }
      if !checks.fitsSchema {
        return Refused(InvalidRecord);
      }
      var row := rows[id].(body := if body.Some? then body.value else rows[id].body);
      Rewrite(id, row, Audit(id, UpdateOp, None, None));
      return Done;
    }

    /**
      Archives a record whatever its status. The logged status before is the JSON copy's, which is
      the record's own exactly if it was not superseded.
     */
    method Archive(kind: Kind, id: string, checks: Checks) returns (result: Result)
      requires Valid()
      modifies this`rows, this`log
      ensures Valid() && Evolves(births, old(rows), rows)
      ensures result.Refused? ==> rows == old(rows) && log == old(log)
      ensures result.Done? ==>
                && Holds(old(rows), id, kind)
                && rows == old(rows)[id := old(rows)[id].(status := Archived, jsonStatus := Archived)]
                && rows == old(rows)[id := AsArchived(old(rows)[id])]
                && log == old(log) + [Audit(id, ArchiveOp, Some(old(rows)[id].jsonStatus), Some(Archived))]
                && old(rows)[id].jsonStatus == JsonStatusOf(old(rows)[id].status)
                && (old(rows)[id].jsonStatus == old(rows)[id].status <==> !old(rows)[id].status.Superseded?)
      ensures result == if Preflight(checks).Some? then Refused(Preflight(checks).value)
                        else if !Holds(old(rows), id, kind) then Refused(NotFound)
                        else Done
      ensures result.Done? <==> Admitted(ArchiveRecord(kind, id, checks), old(rows))
    {
      UpdateFaults(checks);
      var refusal := Preflight(checks);
      if refusal.Some? {
        return Refused(refusal.value);
      }
      if id !in rows || rows[id].kind != kind {
        return Refused(NotFound);
      }
      assert SaneRow(rows, births, id);
      Rewrite(id, AsArchived(rows[id]), Audit(id, ArchiveOp, Some(rows[id].jsonStatus), Some(Archived)));
      return Done;
    }

    method Delete(kind: Kind, id: string, checks: Checks) returns (result: Result)
      requires Valid()
      modifies this`rows, this`log
      ensures Valid() && Evolves(births, old(rows), rows)
      ensures result.Refused? ==> rows == old(rows) && log == old(log)
      ensures result.Done? ==>
                && Holds(old(rows), id, kind)
                && rows == old(rows) - {id}
                && log == old(log) + [Audit(id, DeleteOp, Some(old(rows)[id].status), None)]
      ensures result == if Preflight(checks).Some? then Refused(Preflight(checks).value)
                        else if !Holds(old(rows), id, kind) then Refused(NotFound)
                        else Done
      ensures result.Done? <==> Admitted(DeleteRecord(kind, id, checks), old(rows))
    {
      UpdateFaults(checks);
      var refusal := Preflight(checks);
      if refusal.Some? {
        return Refused(refusal.value);
      }
      if id !in rows || rows[id].kind != kind {
        return Refused(NotFound);
      }
      var entry := Audit(id, DeleteOp, Some(rows[id].status), None);
      DeleteKeepsLinks(rows, births, id);
      LogOneMore(rows, log, rows - {id}, entry);
      rows := rows - {id};
      log := log + [entry];
      return Done;
    }

    method Supersede(oldId: string, draft: Draft, checks: Checks, newId: string) returns (result: Result)
      requires Valid() && newId !in births.rank
      modifies this
      ensures Valid() && Evolves(old(births), old(rows), rows)
      ensures result.Refused? ==> rows == old(rows) && log == old(log) && births == old(births)
      ensures result.Done? ==>
                && Holds(old(rows), oldId, draft.kind)
                && rows == old(rows)[newId := Row(draft.kind, draft.scope, draft.scopeRef, draft.title, Active, Active,
                                                  draft.body, Some(oldId), None)]
                                    [oldId := old(rows)[oldId].(status := Superseded, supersededBy := Some(newId))]
                && rows == Superseding(old(rows), oldId, newId, RowOf(draft, Some(oldId)))
                && log == old(log) + [Audit(newId, SupersedeOp, None, Some(Active)),
                                      Audit(oldId, SupersedeOp, Some(Active), Some(Superseded))]
                && births == Born(old(births), newId)
      ensures result == if DraftPreflight(draft, checks).Some? then Refused(DraftPreflight(draft, checks).value)
                        else if !Holds(old(rows), oldId, draft.kind) then Refused(NotFound)
                        else if !IsAllowedSupersedeScopePair(old(rows)[oldId].scope, draft.scope)
                            then Refused(InvalidSupersedeScope)
                        else if !old(rows)[oldId].status.Active? then Refused(InvalidSupersedeTarget)
                        else if !checks.fitsSchema then Refused(InvalidRecord)
                        else Done
      ensures result.Done? <==> CleanDraft(draft, checks) && MayReplace(old(rows), oldId, draft)
    {
      DraftFaults(draft, checks);
      var refusal := DraftPreflight(draft, checks);
      if refusal.Some? {
        return Refused(refusal.value);
      }
      if oldId !in rows || rows[oldId].kind != draft.kind {
        return Refused(NotFound);
      }
      if !IsAllowedSupersedeScopePair(rows[oldId].scope, draft.scope) {
        return Refused(InvalidSupersedeScope);
      }
      if !rows[oldId].status.Active? {
        return Refused(InvalidSupersedeTarget);
      }
      if !checks.fitsSchema {
        return Refused(InvalidRecord);
      }
      var row := RowOf(draft, Some(oldId));
      var created, retired := Audit(newId, SupersedeOp, None, Some(Active)),
          Audit(oldId, SupersedeOp, Some(Active), Some(Superseded));
      NewIdIsNoRow(newId);
      SupersedeKeepsLinks(rows, births, oldId, newId, row);
      SupersedeIsLogged(rows, log, oldId, newId, row);
      PutRecord(newId, row, created);
      MarkSuperseded(oldId, newId, retired);
      births := Born(births, newId);
      assert log == old(log) + [created, retired];
      return Done;
    }

    static lemma {:induction false} SupersedeIsLogged(rows: Rows, log: seq<Audit>, oldId: string, newId: string,
                                                      row: Row)
      requires LogAgrees(rows, log) && oldId in rows && newId !in rows && row.status.Active?
      ensures LogAgrees(
                Superseding(rows, oldId, newId, row),
                (log + [Audit(newId, SupersedeOp, None, Some(Active))])
                    + [Audit(oldId, SupersedeOp, Some(Active), Some(Superseded))])
    {
      var created, retired := Audit(newId, SupersedeOp, None, Some(Active)),
          Audit(oldId, SupersedeOp, Some(Active), Some(Superseded));
      var mid := rows[newId := row];
      LogOneMore(rows, log, mid, created);
      LogOneMore(mid, log + [created], mid[oldId := AsSuperseded(rows[oldId], newId)], retired);
    }

    // ---- archiving a whole scope

    predicate InScope(id: string, kind: Kind, scope: Scope, scopeRef: string)
      reads this
    {
      id in rows && rows[id].kind == kind && rows[id].scope == scope && rows[id].scopeRef == Some(scopeRef)
          && rows[id].status.Active?
    }

    /** Archives the active records of one kind in a scope; nothing else changes. */
    method ArchiveScopeOf(kind: Kind, scope: Scope, scopeRef: string) returns (ids: set<string>)
      requires Valid()
      modifies this`rows, this`log
      ensures Valid() && Evolves(births, old(rows), rows) && old(log) <= log
      ensures forall id :: id in ids <==> old(InScope(id, kind, scope, scopeRef))
      ensures forall id :: id in ids <==>
                && id in old(rows) && old(rows)[id].kind == kind && old(rows)[id].status == Active
                && old(rows)[id].scope == scope && old(rows)[id].scopeRef == Some(scopeRef)
      ensures ArchivedExactly(old(rows), rows, ids) && LoggedArchived(old(log), log, ids)
    {
      ids := set id | id in rows && InScope(id, kind, scope, scopeRef);
      var done: set<string> := {};
      while done != ids
        invariant done <= ids && ids <= old(rows).Keys
        invariant Valid() && old(log) <= log
        invariant ArchivedExactly(old(rows), rows, done) && LoggedArchived(old(log), log, done)
        decreases ids - done
      {
        assert ids - done != {};
        var id :| id in ids - done;
        ArchiveOneMore(old(rows), rows, done, id);
        LogArchived(old(log), log, done, id);
        Rewrite(id, AsArchived(rows[id]), Audit(id, ArchiveOp, Some(Active), Some(Archived)));
        done := done + {id};
      }
      ArchivingEvolves(births, old(rows), rows, ids);
    }

    /** A finished stage or session: its skills and memories are archived together. */
    method ArchiveScopeForProject(scope: Scope, scopeRef: string, lockHeld: bool) returns (result: Result)
      requires Valid()
      modifies this`rows, this`log
      ensures Valid() && Evolves(births, old(rows), rows) && old(log) <= log
      ensures result == if lockHeld then Done else Refused(NoRuntimeLock)
      ensures result.Refused? ==> rows == old(rows) && log == old(log)
      ensures result.Done? ==>
                && rows.Keys == old(rows).Keys
                && forall id :: id in rows ==>
                     var was := old(rows)[id];
                     rows[id] == if was.status == Active && was.scope == scope && was.scopeRef == Some(scopeRef)
                                 then was.(status := Archived, jsonStatus := Archived) else was
      ensures result.Done? ==> forall id :: id in rows ==>
                !(rows[id].status == Active && rows[id].scope == scope && rows[id].scopeRef == Some(scopeRef))
    {
      if !lockHeld {
        return Refused(NoRuntimeLock);
      }
      var skills := ArchiveScopeOf(Skill, scope, scopeRef);
      ghost var mid := rows;
      var memories := ArchiveScopeOf(Memory, scope, scopeRef);
      EvolvesFurther(births, old(rows), births, mid, rows);
      BothArchived(old(rows), mid, rows, skills, memories, scope, scopeRef);
      return Done;
    }

    // ---- reading

    /** The seen set of the walk is never what stops it: the result has no present successor. */
    method WalkSupersedeChain(start: string) returns (head: string)
      requires Valid() && start in rows
      ensures head == Head(rows, births, start)
    {
      head := start;
      var seen := {start};
      while rows[head].supersededBy.Some?
        invariant head in rows && Head(rows, births, head) == Head(rows, births, start)
        invariant forall s :: s in seen ==> s in rows && births.rank[s] <= births.rank[head]
        decreases births.next - births.rank[head]
      {
        assert SaneRow(rows, births, head);
        var next := rows[head].supersededBy.value;
        if next !in rows || next in seen {
          return;
        }
        assert SaneRow(rows, births, next);
        seen := seen + {next};
        head := next;
      }
    }

    /** By id, the head of the record's chain if it is a memory and the head is active. */
    method GetMemoryById(id: string) returns (found: Option<string>)
      requires Valid()
      ensures found == if Holds(rows, id, Memory) && rows[Head(rows, births, id)].status.Active?
                then Some(Head(rows, births, id)) else None
    {
      if id !in rows || rows[id].kind != Memory {
        return None;
      }
      var head := WalkSupersedeChain(id);
      return if rows[head].status.Active? then Some(head) else None;
    }

    predicate HasTopic(id: string, scope: Scope, topic: string)
      reads this
    {
      id in rows && rows[id].kind.Memory? && rows[id].status.Active? && rows[id].scope == scope
          && rows[id].title == topic
    }

    /** By topic, an active memory of the narrowest scope that has one. */
    method GetMemoryByTopic(topic: string) returns (found: Option<string>)
      requires Valid()
      ensures found.None? <==> forall id, scope :: !HasTopic(id, scope, topic)
      ensures found.None? <==> forall id :: id in rows ==>
                !(rows[id].kind == Memory && rows[id].status == Active && rows[id].title == topic)
      ensures found.Some? ==>
                && found.value in rows && rows[found.value].kind == Memory && rows[found.value].status == Active
                && rows[found.value].title == topic
      ensures found.Some? ==>
                && found.value in rows && HasTopic(found.value, rows[found.value].scope, topic)
                && (rows[found.value].scope.Stage? ==> forall id :: !HasTopic(id, Session, topic))
                && (rows[found.value].scope.Project? ==>
                    forall id :: !HasTopic(id, Session, topic) && !HasTopic(id, Stage, topic))
    {
      var order := [Session, Stage, Project];
      for i := 0 to 3
        invariant forall id, k :: 0 <= k < i ==> !HasTopic(id, order[k], topic)
      {
        if id :| id in rows && HasTopic(id, order[i], topic) {
          assert SaneRow(rows, births, id);
          var head := WalkSupersedeChain(id);
          assert head == id && HasTopic(id, rows[id].scope, topic);
          assert order[0] == Session && order[1] == Stage && order[2] == Project;
          assert rows[id].scope == order[i];
          assert i > 0 ==> forall x :: !HasTopic(x, order[0], topic);
          assert i > 1 ==> forall x :: !HasTopic(x, order[1], topic);
          return if rows[head].status.Active? then Some(head) else None;
        }
      }
      forall id, scope: Scope
        ensures !HasTopic(id, scope, topic)
      {
        assert order[0] == Session && order[1] == Stage && order[2] == Project;
        assert !HasTopic(id, order[0], topic) && !HasTopic(id, order[1], topic) && !HasTopic(id, order[2], topic);
      }
      assert forall id :: id in rows ==> !HasTopic(id, rows[id].scope, topic);
      return None;
    }

    // ---- runs

    lemma {:induction false} RowsAreBorn()
      requires Valid()
      ensures rows.Keys <= births.rank.Keys
    {
      forall id | id in rows
        ensures id in births.rank
      {
        assert SaneRow(rows, births, id);
      }
    }

    method Do(op: Op) returns (result: Result)
      requires Valid() && DrawnId(op) !! births.rank.Keys
      modifies this
      ensures Valid() && Evolves(old(births), old(rows), rows) && old(log) <= log
      ensures old(births).rank.Keys <= births.rank.Keys <= old(births).rank.Keys + DrawnId(op)
      ensures result.Refused? ==> log == old(log)
      ensures Step(op, result, old(rows), rows, births)
    {
      RowsAreBorn();
      match op
      case CreateRecord(draft, checks, id) => result := Create(draft, checks, id);
      case UpdateRecord(kind, id, body, checks) => result := Update(kind, id, body, checks);
      case ArchiveRecord(kind, id, checks) => result := Archive(kind, id, checks);
      case DeleteRecord(kind, id, checks) => result := Delete(kind, id, checks);
      case SupersedeRecord(oldId, draft, checks, id) => result := Supersede(oldId, draft, checks, id);
      case ArchiveScope(scope, scopeRef, lockHeld) => result := ArchiveScopeForProject(scope, scopeRef, lockHeld);
      RowsAreBorn();
    }

    /**
      Over any run of operations with fresh ids: links stay acyclic and unshared, the log only
      grows and replays to the rows, and nothing that stopped being active is active again. Active
      names stay unique throughout exactly when no supersession takes a held one. What is carried
      out is exactly what is admitted, so no record is ever created with an unfavourable verdict.
     */
    method Run(ops: seq<Op>) returns (results: seq<Result>, ghost states: seq<Rows>, ghost born: seq<Births>)
      requires Valid() && FreshIds(ops, births.rank.Keys)
      modifies this
      ensures Valid() && Evolves(old(births), old(rows), rows) && old(log) <= log
      ensures Trace(ops, results, states, born) && states[0] == old(rows) && states[|ops|] == rows
      ensures old(UniqueNames(rows)) ==>
                ((forall i :: 0 <= i < |states| ==> UniqueNames(states[i])) <==>
                 forall i :: 0 <= i < |ops| ==> !TakesHeldName(ops[i], results[i], states[i]))
    {
      results, states, born := [], [rows], [births];
      for i := 0 to |ops|
        invariant Valid() && Evolves(old(births), old(rows), rows) && old(log) <= log
        invariant old(births).rank.Keys <= births.rank.Keys
        invariant forall k :: i <= k < |ops| ==> DrawnId(ops[k]) !! births.rank.Keys
        invariant Trace(ops[..i], results, states, born) && states[0] == old(rows) && states[i] == rows
      {
        ghost var b1, r1 := births, rows;
        var result := Do(ops[i]);
        EvolvesFurther(old(births), old(rows), b1, r1, rows);
        TraceSnoc(ops, i, results, states, born, result, rows, births);
        results, states, born := results + [result], states + [rows], born + [births];
      }
      assert ops[..|ops|] == ops;
      if old(UniqueNames(rows)) {
        NamesOverRun(ops, results, states, born);
      }
    }

    static lemma {:induction false} TraceSnoc(ops: seq<Op>, i: nat, results: seq<Result>, states: seq<Rows>,
                                              born: seq<Births>, result: Result, rows: Rows, births: Births)
      requires i < |ops| && Trace(ops[..i], results, states, born)
      requires Step(ops[i], result, states[i], rows, births)
      ensures Trace(ops[..i + 1], results + [result], states + [rows], born + [births])
    {
      var done, rs, ss, bs := ops[..i + 1], results + [result], states + [rows], born + [births];
      forall k, m | 0 <= k < |done| && m == k + 1
        ensures Step(done[k], rs[k], ss[k], ss[m], bs[m])
      {
        if k < i {
          assert Step(ops[..i][k], results[k], states[k], states[m], born[m]);
        }
      }
    }
  }

  /** Two skills are created and the second is superseded by one named like the first: two active ones share it. */
  method DuplicateAName() returns (store: KnowledgeStore)
    ensures fresh(store) && store.Valid() && !UniqueNames(store.rows)
  {
    store := new KnowledgeStore();
    var clean := Checks(true, true, true, true, true, true);
    var first, second := Draft(Skill, Project, None, "a", ""), Draft(Skill, Project, None, "b", "");
    var done := store.Create(first, clean, "1");
    assert done.Done?;
    assert !HeldAlready(store.rows, second);
    done := store.Create(second, clean, "2");
    assert done.Done?;
    ghost var rows := store.rows;
    done := store.Supersede("2", first, clean, "3");
    assert done.Done?;
    assert store.rows["1"] == rows["1"] && PlaceOf(store.rows["1"]) == PlaceOf(store.rows["3"]);
  }
}
