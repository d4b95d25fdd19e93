/**
 * Owner outlives its clients: while an SMB placement is not being torn down, its owner's placement of the
 * same lab stands. Every operation keeps this; a result breaks it exactly when it is stale.
 */
module LabOwners {
  import opened Prelude
  import opened RosterPlan
  import RosterImport
  import opened LabState
  import opened LabInvariants
  import opened LabTeardown

  ghost predicate OwnersOutlive(s: State) {
    forall site :: site in s.placements ==> Sheltered(s, site)
  }

  ghost predicate Sheltered(s: State, site: Site) {
    Alive(s, site) && site.node in s.nodes && s.nodes[site.node].owner.Some? ==>
      Alive(s, Site(site.lab, s.nodes[site.node].owner.value))
  }

  lemma PhasesKeptOwners(s: State, t: State)
    requires OwnersOutlive(s) && PhasesKept(s, t)
    ensures OwnersOutlive(t)
  {
    forall site | site in t.placements
      ensures Sheltered(t, site)
    {
      assert Sheltered(s, site);
    }
  }

  lemma CreatePlacementOwners(s: State, site: Site, request: Request, roster: seq<StudentId>)
    requires Good(s) && OwnersOutlive(s)
    ensures OwnersOutlive(CreatePlacement(s, site, request, roster).state)
  {
    var d := CreatePlacement(s, site, request, roster);
    if d.ok {
      var born := s.(placements := s.placements[site := Placement(Provisioning, request.port, {})]);
      var t := Enqueue(born, site.node, site.lab, LabCreate);
      assert FreshIds(t);
      ProvisionRosterEnrolls(t, site, roster);
      assert OwnersOutlive(t) by {
        forall other | other in t.placements
          ensures Sheltered(t, other)
        {
          assert other != site ==> Sheltered(s, other);
        }
      }
      PhasesKeptOwners(t, d.state);
    }
  }

  /** A placement goes, or starts to go, without leaving a live client behind. */
  lemma GoingOwners(s: State, t: State, gone: Site)
    requires OwnersAreLocal(s) && OwnersOutlive(s) && t.nodes == s.nodes && !Blocked(s, gone)
    requires forall site :: site in t.placements ==> site in s.placements
    requires forall site :: site in s.placements && site != gone ==> site in t.placements && t.placements[site] == s.placements[site]
    requires !Alive(t, gone)
    ensures OwnersOutlive(t)
  {
    forall site | site in t.placements
      ensures Sheltered(t, site)
    {
      assert Sheltered(s, site);
      if Alive(t, site) && site.node in s.nodes && s.nodes[site.node].owner.Some? {
        var owner := Site(site.lab, s.nodes[site.node].owner.value);
        assert owner == gone ==> LiveClient(s, gone, site.node);
      }
    }
  }

  lemma DestroyPlacementOwners(s: State, site: Site)
    requires OwnersAreLocal(s) && OwnersOutlive(s)
    ensures OwnersOutlive(DestroyPlacement(s, site).state) && OwnersOutlive(ForceDelete(s, site).state)
  {
    if site in s.placements && !Blocked(s, site) {
      GoingOwners(s, Enqueue(WithPhase(s, site, Deleting), site.node, site.lab, LabDestroy), site);
      GoingOwners(s, WithoutPlacement(Enqueue(s, site.node, site.lab, LabDestroy), site), site);
    }
  }

  lemma RetryOwners(s: State, site: Site)
    requires OwnersOutlive(s)
    ensures OwnersOutlive(Retry(s, site).state)
  {
    var t := Retry(s, site).state;
    forall other | other in t.placements
      ensures Sheltered(t, other)
    {
      assert Sheltered(s, other);
    }
  }

  lemma DestroyLabOwners(s: State, lab: LabName, force: bool, hosts: seq<NodeName>, roster: seq<StudentId>)
    requires Good(s) && OwnersOutlive(s) && Listing(hosts, HostsOf(s, lab))
    ensures OwnersOutlive(DestroyLab(s, lab, force, hosts, roster).state)
  {
    if lab in s.labs {
      var t := DestroyLab(s, lab, force, hosts, roster).state;
      DestroyLabTearsDownEverything(s, lab, force, hosts, roster);
      DestroyLabKeepsNodes(s, lab, force, hosts, roster);
      hide DestroyLab, Good, HostsOf;
      forall site | site in t.placements
        ensures Sheltered(t, site)
      {
        assert site.lab != lab ==> Sheltered(s, site);
        assert Site(lab, site.node) == site || site.lab != lab;
      }
    }
  }

  lemma DestroyLabKeepsNodes(s: State, lab: LabName, force: bool, hosts: seq<NodeName>, roster: seq<StudentId>)
    requires Good(s) && Listing(hosts, HostsOf(s, lab)) && lab in s.labs
    ensures DestroyLab(s, lab, force, hosts, roster).state.nodes == s.nodes
  {
    var order := TearDownOrder(s, hosts);
    TearDownOrderIsClientsFirst(s, lab, hosts);
    TearDownTears(s, lab, force, order, |order|);
    assert order[..|order|] == order;
    DropOrphansKeepsNodes(DropLab(TearDown(s, lab, force, order).state, lab), roster);
  }

  lemma {:induction false} DropOrphansKeepsNodes(s: State, roster: seq<StudentId>)
    ensures DropOrphans(s, roster).state.nodes == s.nodes
    ensures DropOrphans(s, roster).state.tasks == s.tasks && DropOrphans(s, roster).state.next == s.next
    decreases |roster|
  {
    if roster != [] {
      DropOrphansKeepsNodes(s, roster[..|roster| - 1]);
    }
  }

  // ------------------------------------------------------------------ nodes

  lemma SetColdStorageKeeps(s: State, node: NodeName, backend: Backend, owner: Option<NodeName>)
    requires Good(s)
    ensures Good(SetColdStorage(s, node, backend, owner).state)
    ensures OwnersOutlive(s) ==> OwnersOutlive(SetColdStorage(s, node, backend, owner).state)
  {
    var t := SetColdStorage(s, node, backend, owner).state;
    hide LabSound, Unique, RosterImport.Numbered;
    if OwnersOutlive(s) {
      forall site | site in t.placements
        ensures Sheltered(t, site)
      {
        assert Sheltered(s, site);
      }
    }
  }

  lemma DeleteNodeKeepsGood(s: State, node: NodeName, force: bool)
    requires Good(s)
    ensures Good(DeleteNode(s, node, force).state)
  {
    hide LabSound, Unique, RosterImport.Numbered;
  }

  lemma DeleteNodeOwners(s: State, node: NodeName, force: bool)
    requires OwnersOutlive(s)
    ensures OwnersOutlive(DeleteNode(s, node, force).state)
  {
    var t := DeleteNode(s, node, force).state;
    forall site | site in t.placements
      ensures Sheltered(t, site)
    {
      assert Sheltered(s, site);
    }
  }

  lemma ProvisionNodeKeeps(s: State, node: NodeName, valid: bool)
    requires Good(s)
    ensures Good(ProvisionNode(s, node, valid).state)
    ensures OwnersOutlive(s) ==> OwnersOutlive(ProvisionNode(s, node, valid).state)
  {
    var t := ProvisionNode(s, node, valid).state;
    hide LabSound, Unique, RosterImport.Numbered;
    if OwnersOutlive(s) {
      forall site | site in t.placements
        ensures Sheltered(t, site)
      {
        assert Sheltered(s, site);
      }
    }
  }

  lemma ReportKeeps(s: State, node: NodeName, online: bool, ready: bool, mapping: Option<string>)
    requires Good(s)
    ensures Good(Report(s, node, online, ready, mapping))
    ensures OwnersOutlive(s) ==> OwnersOutlive(Report(s, node, online, ready, mapping))
  {
    var t := Report(s, node, online, ready, mapping);
    hide LabSound, Unique, RosterImport.Numbered;
    if OwnersOutlive(s) {
      forall site | site in t.placements
        ensures Sheltered(t, site)
      {
        assert Sheltered(s, site);
      }
    }
  }

  // ------------------------------------------------------------------ results

  /** The row a result is applied to is that of a client whose owner no longer stands. */
  predicate Unsheltered(s: State, site: Site) {
    && site in s.placements && s.placements[site].phase.Deleting?
    && site.node in s.nodes && s.nodes[site.node].owner.Some?
    && !Alive(s, Site(site.lab, s.nodes[site.node].owner.value))
  }

  /** The row a result is applied to is a standing owner with live clients. */
  predicate Sheltering(s: State, site: Site) {
    Alive(s, site) && exists node :: node in s.nodes && LiveClient(s, site, node)
  }

  /**
   * A late create result revives a client that was told to tear down, after its owner went; or a late
   * failed teardown marks an owner deleting while its clients live.
   */
  predicate Stale(s: State, id: TaskId, ok: bool, named: Option<LabName>) {
    id in s.tasks && s.tasks[id].progress.Open? &&
    var site := ResultSite(s.tasks[id], named);
    site.lab != "" &&
    match s.tasks[id].kind
    case LabCreate => Unsheltered(s, site)
    case LabDestroy => !ok && Sheltering(s, site)
    case _ => false
  }

  lemma ReviveOwners(s: State, site: Site, phase: Phase)
    requires OwnersAreLocal(s) && OwnersOutlive(s) && !phase.Deleting?
    ensures OwnersOutlive(WithPhase(s, site, phase)) <==> !Unsheltered(s, site)
  {
    var t := WithPhase(s, site, phase);
    if site in s.placements {
      if Unsheltered(s, site) {
        assert s.nodes[site.node].backend.Smb? && site.node != s.nodes[site.node].owner.value;
        assert !Sheltered(t, site);
      } else {
        forall other | other in t.placements
          ensures Sheltered(t, other)
        {
          assert Sheltered(s, other);
        }
      }
    }
  }

  lemma FellOwners(s: State, site: Site)
    requires OwnersAreLocal(s) && OwnersOutlive(s)
    ensures OwnersOutlive(WithPhase(s, site, Deleting)) <==> !Sheltering(s, site)
  {
    var t := WithPhase(s, site, Deleting);
    if Sheltering(s, site) {
      var node :| node in s.nodes && LiveClient(s, site, node);
      assert node != site.node;
      assert !Sheltered(t, Site(site.lab, node));
    } else {
      forall other | other in t.placements
        ensures Sheltered(t, other)
      {
        assert Sheltered(s, other);
        if Alive(t, other) && other.node in s.nodes && s.nodes[other.node].owner.Some? {
          var owner := Site(other.lab, s.nodes[other.node].owner.value);
          assert owner == site ==> LiveClient(s, site, other.node);
        }
      }
    }
  }

  /** Cleaning up only enqueues tasks. */
  lemma {:induction false} CleanUpEnqueues(s: State, task: Task, nodes: seq<NodeName>)
    requires task.kind.AccountRemove? && task.kind.removal.Some?
    ensures var t := CleanUp(s, task, nodes); t == s.(tasks := t.tasks, next := t.next)
    ensures FreshIds(s) ==> FreshIds(CleanUp(s, task, nodes))
    decreases |nodes|
  {
    if nodes != [] {
      CleanUpEnqueues(s, task, nodes[..|nodes| - 1]);
    }
  }

  lemma HandleResultKeepsGood(s: State, id: TaskId, ok: bool, named: Option<LabName>)
    requires Good(s)
    ensures Good(HandleResult(s, id, ok, named))
  {
    if id in s.tasks && s.tasks[id].progress.Open? {
      var task := s.tasks[id].(progress := if ok then Succeeded else Failing);
      var t := s.(tasks := s.tasks[id := task]);
      var site := ResultSite(task, named);
      assert Good(t) by {
        hide LabSound, Unique, RosterImport.Numbered;
      }
      hide Good;
      match task.kind {
        case LabCreate => WithPhaseKeepsGood(t, site, if ok then Active else Failed);
        case LabDestroy =>
          WithPhaseKeepsGood(t, site, Deleting);
          WithoutPlacementKeepsGood(t, site);
        case AccountRemove(_, removal) =>
          if removal.Some? {
            CleanUpEnqueues(t, task, removal.value.nodes);
            CleanedIsGood(t, CleanUp(t, task, removal.value.nodes));
          }
        case _ =>
      }
    }
  }

  lemma CleanedIsGood(s: State, t: State)
    requires Good(s) && t == s.(tasks := t.tasks, next := t.next) && FreshIds(t)
    ensures Good(t)
  {
    hide LabSound, Unique, RosterImport.Numbered, FreshIds;
  }

  lemma SamePlacementsOwners(s: State, t: State)
    requires t.placements == s.placements && t.nodes == s.nodes
    ensures OwnersOutlive(t) <==> OwnersOutlive(s)
    ensures forall site :: Unsheltered(t, site) == Unsheltered(s, site)
    ensures forall site :: Sheltering(t, site) == Sheltering(s, site)
  {
    assert forall site :: site in s.placements ==> Sheltered(t, site) == Sheltered(s, site);
    assert forall site, node :: LiveClient(t, site, node) == LiveClient(s, site, node);
  }

  /** A result keeps owners outliving their clients exactly when it is not stale. */
  lemma ResultKeepsOwnersIffNotStale(s: State, id: TaskId, ok: bool, named: Option<LabName>)
    requires Good(s) && OwnersOutlive(s)
    ensures OwnersOutlive(HandleResult(s, id, ok, named)) <==> !Stale(s, id, ok, named)
  {
    if id in s.tasks && s.tasks[id].progress.Open? {
      var task := s.tasks[id].(progress := if ok then Succeeded else Failing);
      var t := s.(tasks := s.tasks[id := task]);
      var site := ResultSite(task, named);
      SamePlacementsOwners(s, t);
      assert OwnersAreLocal(t);
      hide OwnersOutlive, Unsheltered, Sheltering, Good, OwnersAreLocal;
      match task.kind {
        case LabCreate => ReviveOwners(t, site, if ok then Active else Failed);
        case LabDestroy =>
          FellOwners(t, site);
          if ok && site in t.placements && t.placements[site].phase.Deleting? {
            DeletingGoes(t, site);
          }
        case AccountRemove(_, removal) =>
          if removal.Some? {
            CleanUpEnqueues(t, task, removal.value.nodes);
            SamePlacementsOwners(t, CleanUp(t, task, removal.value.nodes));
          }
        case _ =>
      }
    }
  }

  lemma DeletingGoes(s: State, site: Site)
    requires OwnersOutlive(s) && site in s.placements && s.placements[site].phase.Deleting?
    ensures OwnersOutlive(WithoutPlacement(s, site))
  {
    forall other | other in s.placements && other != site
      ensures Sheltered(WithoutPlacement(s, site), other)
    {
      assert Sheltered(s, other);
    }
  }
}
