/** The in-memory application store: applications, their owners and the idempotency index. */
module ApplicationStore {
  import opened Common
  import opened ApplicationStages

  type AppId = nat
  type JobId = nat
  type CandidateId = nat
  type Key = nat

  datatype App = App(job: JobId, stage: Stage)

  /** The three maps. The idempotency index is keyed by candidate and key together. */
  datatype Store = Store(apps: map<AppId, App>, owner: map<AppId, CandidateId>, idem: map<(CandidateId, Key), AppId>)

  datatype Outcome = Stored(id: AppId) | AlreadyApplied | NotFound | Refused | Done

  predicate Applied(s: Store, job: JobId, candidate: CandidateId) {
    exists a :: a in s.apps && s.apps[a].job == job && a in s.owner && s.owner[a] == candidate
  }

  predicate Remembered(s: Store, candidate: CandidateId, key: Option<Key>) {
    key.Some? && (candidate, key.value) in s.idem && s.idem[(candidate, key.value)] in s.apps
  }

  datatype Request =
    | Create(candidate: CandidateId, job: JobId, key: Option<Key>, id: AppId)
    | Withdraw(app: AppId)
    | Archive(app: AppId)

  function Filed(s: Store, candidate: CandidateId, job: JobId, key: Option<Key>, id: AppId): Store {
    Store(s.apps[id := App(job, Stage.Applied)], s.owner[id := candidate],
          if key.Some? then s.idem[(candidate, key.value) := id] else s.idem)
  }

  function Restaged(s: Store, app: AppId, stage: Stage): Store
    requires app in s.apps
  {
    s.(apps := s.apps[app := s.apps[app].(stage := stage)])
  }

  /** `id` is the fresh id drawn for the application, used only if one is stored. */
  function Serve(s: Store, r: Request): (Store, Outcome) {
    match r
    case Create(candidate, job, key, id) =>
      if Remembered(s, candidate, key) then (s, Stored(s.idem[(candidate, key.value)]))
      else if Applied(s, job, candidate) then (s, AlreadyApplied)
      else
        (Filed(s, candidate, job, key, id), Stored(id))
    case Withdraw(app) =>
      if app !in s.apps then (s, NotFound)
      else if !ValidateTransition(s.apps[app].stage, Withdrawn, true).Allowed? then (s, Refused)
      else (Restaged(s, app, Withdrawn), Done)
    case Archive(app) =>
      if app !in s.apps then (s, NotFound)
      else (Restaged(s, app, Archived), Done)
  }

  function ServeAll(s: Store, rs: seq<Request>): Store
    decreases |rs|
  {
    if rs == [] then s else ServeAll(Serve(s, rs[0]).0, rs[1..])
  }

  /** Ids drawn by later requests are new. */
  ghost predicate FreshIds(s: Store, rs: seq<Request>)
    decreases |rs|
  {
    rs != [] ==> (rs[0].Create? ==> rs[0].id !in s.apps) && FreshIds(Serve(s, rs[0]).0, rs[1..])
  }

  /** The maps agree: every application has an owner, nobody applied twice to one job, and every
    remembered key leads to an application of the candidate who used it. */
  ghost predicate Consistent(s: Store) {
    && s.apps.Keys == s.owner.Keys
    && (forall a, b | a in s.apps && b in s.apps && s.apps[a].job == s.apps[b].job && s.owner[a] == s.owner[b] :: a == b)
    && (forall k :: k in s.idem ==> s.idem[k] in s.apps && s.owner[s.idem[k]] == k.0)
  }

  /** Nothing is ever forgotten: applications keep their job and owner, keys their answer. */
  ghost predicate Grows(s: Store, z: Store) {
    && (forall a :: a in s.apps ==> a in z.apps && z.apps[a].job == s.apps[a].job)
    && (forall a :: a in s.owner ==> a in z.owner && z.owner[a] == s.owner[a])
    && (forall k :: k in s.idem ==> k in z.idem && z.idem[k] == s.idem[k])
  }

  lemma FiledGrows(s: Store, candidate: CandidateId, job: JobId, key: Option<Key>, id: AppId)
    requires Consistent(s) && id !in s.apps && !Remembered(s, candidate, key)
    ensures Grows(s, Filed(s, candidate, job, key, id))
  {
    var z := Filed(s, candidate, job, key, id);
    assert forall k :: k in s.idem ==> k in z.idem && z.idem[k] == s.idem[k];
  }

  lemma FiledKeepsConsistent(s: Store, candidate: CandidateId, job: JobId, key: Option<Key>, id: AppId)
    requires Consistent(s) && id !in s.apps && !Applied(s, job, candidate)
    ensures Consistent(Filed(s, candidate, job, key, id))
  {
    assert forall a :: a in s.apps && s.apps[a].job == job ==> s.owner[a] != candidate;
  }

  lemma RestagedKeepsConsistent(s: Store, app: AppId, stage: Stage)
    requires Consistent(s) && app in s.apps
    ensures Consistent(Restaged(s, app, stage)) && Grows(s, Restaged(s, app, stage))
  {
  }

  lemma ServeKeepsConsistent(s: Store, r: Request)
    requires Consistent(s) && (r.Create? ==> r.id !in s.apps)
    ensures Consistent(Serve(s, r).0) && Grows(s, Serve(s, r).0)
  {
    match r {
      case Create(candidate, job, key, id) =>
        if !Remembered(s, candidate, key) && !Applied(s, job, candidate) {
          FiledKeepsConsistent(s, candidate, job, key, id);
          FiledGrows(s, candidate, job, key, id);
        }
      case Withdraw(app) =>
        if app in s.apps {
          RestagedKeepsConsistent(s, app, Withdrawn);
        }
      case Archive(app) =>
        if app in s.apps {
          RestagedKeepsConsistent(s, app, Archived);
        }
    }
  }

  lemma {:induction false} StoreStaysConsistent(s: Store, rs: seq<Request>)
    requires Consistent(s) && FreshIds(s, rs)
    ensures Consistent(ServeAll(s, rs)) && Grows(s, ServeAll(s, rs))
    decreases |rs|
  {
    if rs != [] {
      ServeKeepsConsistent(s, rs[0]);
      StoreStaysConsistent(Serve(s, rs[0]).0, rs[1..]);
    }
  }

  /** A create is answered with the application its key was used for before; else it is refused if
    the candidate has an application for the job; else the application is filed as Applied for its
    owner, the key remembered, and nothing else touched. */
  lemma CreateFilesOnce(s: Store, candidate: CandidateId, job: JobId, key: Option<Key>, id: AppId)
    requires Consistent(s) && id !in s.apps
    ensures var (z, o) := Serve(s, Create(candidate, job, key, id));
      if key.Some? && (candidate, key.value) in s.idem then
        z == s && o == Stored(s.idem[(candidate, key.value)])
      else if exists a :: a in s.apps && s.apps[a].job == job && s.owner[a] == candidate then
        z == s && o == AlreadyApplied
      else
        && o == Stored(id)
        && z.apps == s.apps[id := App(job, Stage.Applied)] && z.owner == s.owner[id := candidate]
        && z.idem == if key.Some? then s.idem[(candidate, key.value) := id] else s.idem
  {
    assert Applied(s, job, candidate) <==> exists a :: a in s.apps && s.apps[a].job == job && s.owner[a] == candidate;
  }

  /** Closing an application moves its stage, to Withdrawn or to Archived, and nothing else. */
  lemma ClosingLands(s: Store, app: AppId)
    ensures app !in s.apps ==> Serve(s, Withdraw(app)) == (s, NotFound) && Serve(s, Archive(app)) == (s, NotFound)
    ensures app in s.apps ==>
      && Serve(s, Archive(app)) == (Store(s.apps[app := App(s.apps[app].job, Archived)], s.owner, s.idem), Done)
      && Serve(s, Withdraw(app)) ==
           if s.apps[app].stage == Rejected || s.apps[app].stage == Accepted then (s, Refused)
           else (Store(s.apps[app := App(s.apps[app].job, Withdrawn)], s.owner, s.idem), Done)
  {
  }

  /** Once a create with an idempotency key has been accepted, repeating it with that key, after
    any number of other requests and for whatever posting, answers with the same application and
    adds nothing. */
  lemma RepeatedCreateReturnsTheSame(s: Store, r: Request, rs: seq<Request>, again: Request)
    requires Consistent(s) && FreshIds(s, [r] + rs)
    requires r.Create? && r.key.Some? && Serve(s, r).1.Stored?
    requires again.Create? && again.candidate == r.candidate && again.key == r.key
    ensures var z := ServeAll(s, [r] + rs);
            Serve(z, again) == (z, Serve(s, r).1)
  {
    assert ([r] + rs)[1..] == rs;
    var (m, answer) := Serve(s, r);
    ServeKeepsConsistent(s, r);
    StoreStaysConsistent(m, rs);
    assert (r.candidate, r.key.value) in m.idem && m.idem[(r.candidate, r.key.value)] == answer.id;
  }

  /** A second application to one job is refused for ever, whatever key it carries or lacks. */
  lemma SecondApplicationIsRefused(s: Store, a: AppId, rs: seq<Request>, again: Request)
    requires Consistent(s) && FreshIds(s, rs) && a in s.apps
    requires again.Create? && again.candidate == s.owner[a] && again.job == s.apps[a].job
    ensures var z := ServeAll(s, rs);
            !Remembered(z, again.candidate, again.key) ==> Serve(z, again) == (z, AlreadyApplied)
  {
    StoreStaysConsistent(s, rs);
    var z := ServeAll(s, rs);
    assert z.apps[a].job == again.job && z.owner[a] == again.candidate;
  }

  /** Applied until the candidate closes it, closed ever after. */
  ghost predicate StagesHonest(s: Store) {
    forall a :: a in s.apps ==> s.apps[a].stage.Applied? || s.apps[a].stage.Withdrawn? || s.apps[a].stage.Archived?
  }

  ghost predicate StaysClosed(s: Store, z: Store) {
    forall a :: a in s.apps && s.apps[a].stage.Closed() ==> a in z.apps && z.apps[a].stage.Closed()
  }

  /** Over any requests an application is either still Applied or closed, and never reopens. */
  lemma {:induction false} ApplicationsNeverReopen(s: Store, rs: seq<Request>)
    requires FreshIds(s, rs) && StagesHonest(s)
    ensures StagesHonest(ServeAll(s, rs)) && StaysClosed(s, ServeAll(s, rs))
    decreases |rs|
  {
    if rs != [] {
      var m := Serve(s, rs[0]).0;
      assert StagesHonest(m) && StaysClosed(s, m);
      ApplicationsNeverReopen(m, rs[1..]);
    }
  }

  predicate Closes(r: Request, a: AppId) {
    r == Withdraw(a) || r == Archive(a)
  }

  /** Request i is the candidate's last word on the application. */
  predicate LastWord(rs: seq<Request>, a: AppId, i: int) {
    0 <= i < |rs| && Closes(rs[i], a) && forall j :: i < j < |rs| ==> !Closes(rs[j], a)
  }

  lemma OneRequest(s: Store, r: Request, a: AppId)
    requires StagesHonest(s) && a in s.apps && (r.Create? ==> r.id !in s.apps)
    ensures var m := Serve(s, r).0;
      && StagesHonest(m) && a in m.apps
      && (if Closes(r, a) then m.apps[a].stage == (if r.Withdraw? then Withdrawn else Archived)
          else m.apps[a] == s.apps[a])
  {
  }

  /** The candidate's last word on an application decides its stage, Withdrawn or Archived; as long
    as there is none it stays as it was. */
  lemma {:induction false} LastWordDecides(s: Store, rs: seq<Request>, a: AppId)
    requires FreshIds(s, rs) && StagesHonest(s) && a in s.apps
    ensures a in ServeAll(s, rs).apps
    ensures (forall i :: 0 <= i < |rs| ==> !Closes(rs[i], a)) ==> ServeAll(s, rs).apps[a] == s.apps[a]
    ensures forall i :: LastWord(rs, a, i) ==>
      ServeAll(s, rs).apps[a].stage == if rs[i].Withdraw? then Withdrawn else Archived
    decreases |rs|
  {
    if rs != [] {
      OneRequest(s, rs[0], a);
      LastWordDecides(Serve(s, rs[0]).0, rs[1..], a);
      forall i | LastWord(rs, a, i)
        ensures ServeAll(s, rs).apps[a].stage == if rs[i].Withdraw? then Withdrawn else Archived
      {
        assert if i > 0 then LastWord(rs[1..], a, i - 1) else forall j :: 0 <= j < |rs[1..]| ==> !Closes(rs[1..][j], a);
      }
    }
  }

  // ----- the store itself -----

  class ApplicationRow {
    const job: JobId
    var currentStatus: Stage

    constructor (job: JobId)
      ensures this.job == job && currentStatus == Stage.Applied
    {
      this.job, currentStatus := job, Stage.Applied;
    }
  }

  class ApplicationsRepository {
    var memApps: map<AppId, ApplicationRow>
    var memCand: map<AppId, CandidateId>
    var memIdem: map<(CandidateId, Key), AppId>
    ghost var apps: map<AppId, App>

    constructor ()
      ensures Valid() && View() == Store(map[], map[], map[])
    {
      memApps, memCand, memIdem, apps := map[], map[], map[], map[];
    }

    ghost predicate Valid()
      reads `memApps, `apps, memApps.Values
    {
      && (forall a, b :: a in memApps && b in memApps && memApps[a] == memApps[b] ==> a == b)
      && apps.Keys == memApps.Keys
      && (forall a :: a in memApps ==> App(memApps[a].job, memApps[a].currentStatus) == apps[a])
    }

    ghost function View(): Store
      reads this
    {
      Store(apps, memCand, memIdem)
    }

    method CreateApplication(candidate: CandidateId, job: JobId, key: Option<Key>, id: AppId) returns (o: Outcome)
      requires Valid() && Consistent(View()) && id !in memApps
      modifies this
      ensures Valid() && Consistent(View()) && fresh(memApps.Values - old(memApps.Values))
      ensures (View(), o) == Serve(old(View()), Create(candidate, job, key, id))
    {
      ServeKeepsConsistent(View(), Create(candidate, job, key, id));
      if key.Some? && (candidate, key.value) in memIdem && memIdem[(candidate, key.value)] in memApps {
        return Stored(memIdem[(candidate, key.value)]);
      }
      var pending := memApps.Keys;
      while pending != {}
        invariant pending <= memApps.Keys
        invariant forall a :: a in apps && a !in pending ==> apps[a].job != job || memCand[a] != candidate
      {
        var a :| a in pending;
        pending := pending - {a};
        if memApps[a].job == job && memCand[a] == candidate {
          assert apps[a].job == job;
          return AlreadyApplied;
        }
      }
      File(candidate, job, key, id);
      return Stored(id);
    }

    method File(candidate: CandidateId, job: JobId, key: Option<Key>, id: AppId)
      requires Valid()
      modifies this
      ensures Valid() && fresh(memApps.Values - old(memApps.Values))
      ensures View() == Filed(old(View()), candidate, job, key, id)
    {
      var row := new ApplicationRow(job);
      memApps, apps := memApps[id := row], apps[id := App(job, Stage.Applied)];
      memCand := memCand[id := candidate];
      if key.Some? {
        memIdem := memIdem[(candidate, key.value) := id];
      }
    }

    method Restage(id: AppId, stage: Stage)
      requires Valid() && id in memApps
      modifies `apps, memApps[id]
      ensures Valid() && View() == Restaged(old(View()), id, stage)
    {
      memApps[id].currentStatus := stage;
      apps := apps[id := apps[id].(stage := stage)];
    }

    method WithdrawApplication(id: AppId) returns (o: Outcome)
      requires Valid() && Consistent(View())
      modifies `apps, memApps.Values
      ensures Valid() && Consistent(View())
      ensures (View(), o) == Serve(old(View()), Withdraw(id))
    {
      ServeKeepsConsistent(View(), Withdraw(id));
      if id !in memApps {
        return NotFound;
      }
      if !ValidateTransition(memApps[id].currentStatus, Withdrawn, true).Allowed? {
        return Refused;
      }
      Restage(id, Withdrawn);
      return Done;
    }

    method ArchiveApplication(id: AppId) returns (o: Outcome)
      requires Valid() && Consistent(View())
      modifies `apps, memApps.Values
      ensures Valid() && Consistent(View())
      ensures (View(), o) == Serve(old(View()), Archive(id))
    {
      ServeKeepsConsistent(View(), Archive(id));
      if id !in memApps {
        return NotFound;
      }
      Restage(id, Archived);
      return Done;
    }
  }
}
