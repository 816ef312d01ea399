/** Resource discovery of the tenancy-wide server (server.py): compartment
    assembly that always leads with a root entry, and the instance fan-out
    across compartments. */
module ServerDirectory {
  import opened Results
  import opened Resources
  import Seqs

  /** One element of this server's compartment list (no lifecycle field;
      the description is passed through unset). */
  datatype ServerCompartment = ServerCompartment(id: string, name: string, description: Option<string>)

  /** An instance record tagged with the name of the compartment it was listed from. */
  datatype TaggedInstance = TaggedInstance(instance: Instance, compartmentName: string)

  const RootName := "root"
  const RootDescription := "Root compartment"
  const SpecifiedName := "specified"

  function RootOf(id: string): ServerCompartment {
    ServerCompartment(id, RootName, Some(RootDescription))
  }

  function ToServerEntry(c: SdkCompartment): ServerCompartment {
    ServerCompartment(c.id, c.name, c.description)
  }

  function ActiveServerEntries(listed: seq<SdkCompartment>): (r: seq<ServerCompartment>)
    ensures |r| <= |listed|
  {
    Seqs.Map(ToServerEntry, ActiveOnly(listed))
  }

  /** An entry is produced exactly for each listed ACTIVE compartment. */
  lemma ActiveServerEntriesExact(listed: seq<SdkCompartment>, e: ServerCompartment)
    ensures e in ActiveServerEntries(listed) <==> exists c :: c in listed && IsActive(c) && ToServerEntry(c) == e
  {
    Seqs.MapMembership(ToServerEntry, ActiveOnly(listed), e);
    forall c ensures c in ActiveOnly(listed) <==> c in listed && IsActive(c) {
      ActiveOnlyExact(listed, c);
    }
  }

  /** Entries keep the order of the listing. */
  lemma ActiveServerEntriesAppend(a: seq<SdkCompartment>, b: seq<SdkCompartment>)
    ensures ActiveServerEntries(a + b) == ActiveServerEntries(a) + ActiveServerEntries(b)
  {
    ActiveOnlyAppend(a, b);
    Seqs.MapAppend(ToServerEntry, ActiveOnly(a), ActiveOnly(b));
  }

  /** The id the call works on, if it can be resolved: the given id, else the
      tenancy from the configuration (absent when the configuration lacks it). */
  function ScopeId(compartmentId: Option<string>, tenancy: Option<string>): Option<string> {
    if Given(compartmentId) then Some(compartmentId.value) else tenancy
  }

  /** Compartments under the given id (the tenancy when not given). Never
      raises: a failed sub-listing leaves the root alone, any other failure
      (here the missing tenancy) gives the empty list. */
  function GetAllCompartments(
    compartmentId: Option<string>,
    tenancy: Option<string>,
    listSub: string -> Result<seq<SdkCompartment>>): (r: seq<ServerCompartment>)
    ensures r == [] <==> ScopeId(compartmentId, tenancy).None?
    ensures r != [] ==>
      var id := ScopeId(compartmentId, tenancy).value;
      && r[0] == RootOf(id)
      && (listSub(id).Err? ==> r == [RootOf(id)])
      && (listSub(id).Ok? ==> r[1..] == ActiveServerEntries(listSub(id).value))
  {
    match ScopeId(compartmentId, tenancy)
    case None => []
    case Some(id) =>
      [RootOf(id)] + match listSub(id)
        case Err(_) => []
        case Ok(listed) => ActiveServerEntries(listed)
  }

  /** Records for one compartment's listing: none when it raised. */
  function TagAll(c: ServerCompartment, listing: Result<seq<Instance>>): (r: seq<TaggedInstance>)
    ensures listing.Err? ==> r == []
    ensures listing.Ok? ==> |r| == |listing.value|
    ensures listing.Ok? ==> forall i :: 0 <= i < |r| ==> r[i].instance == listing.value[i] && r[i].compartmentName == c.name
  {
    match listing
    case Err(_) => []
    case Ok(listed) => Seqs.Map((i: Instance) => TaggedInstance(i, c.name), listed)
  }

  /** The instances of every compartment in turn, in compartment order. */
  function Collect(comps: seq<ServerCompartment>, listRunning: string -> Result<seq<Instance>>): seq<TaggedInstance> {
    if |comps| == 0 then []
    else TagAll(comps[0], listRunning(comps[0].id)) + Collect(comps[1..], listRunning)
  }

  /** The union is taken in compartment order. */
  lemma {:induction false} CollectAppend(
    a: seq<ServerCompartment>,
    b: seq<ServerCompartment>,
    listRunning: string -> Result<seq<Instance>>)
    ensures Collect(a + b, listRunning) == Collect(a, listRunning) + Collect(b, listRunning)
  {
    if |a| == 0 {
      assert a + b == b;
    } else {
      assert (a + b)[0] == a[0];
      assert (a + b)[1..] == a[1..] + b;
      CollectAppend(a[1..], b, listRunning);
    }
  }

  /** A compartment whose listing raises contributes nothing, and the
      compartments around it are still collected. */
  lemma SkipsFailedCompartment(
    a: seq<ServerCompartment>,
    c: ServerCompartment,
    b: seq<ServerCompartment>,
    listRunning: string -> Result<seq<Instance>>)
    requires listRunning(c.id).Err?
    ensures Collect(a + [c] + b, listRunning) == Collect(a, listRunning) + Collect(b, listRunning)
  {
    assert [c][1..] == [];
    assert Collect([c], listRunning) == TagAll(c, listRunning(c.id)) + Collect([], listRunning);
    assert Collect([c], listRunning) == [];
    CollectAppend(a + [c], b, listRunning);
    CollectAppend(a, [c], listRunning);
    assert Collect(a + [c], listRunning) == Collect(a, listRunning);
  }

  /** `t` is a record of an instance listed for `c`, tagged with `c`'s name. */
  predicate ListedIn(t: TaggedInstance, c: ServerCompartment, listRunning: string -> Result<seq<Instance>>) {
    listRunning(c.id).Ok? && t.instance in listRunning(c.id).value && t.compartmentName == c.name
  }

  /** A record is collected exactly when its instance was listed for one of
      the compartments, tagged with that compartment's name. */
  lemma {:induction false} CollectExact(
    comps: seq<ServerCompartment>,
    listRunning: string -> Result<seq<Instance>>,
    t: TaggedInstance)
    ensures t in Collect(comps, listRunning) <==> exists k :: 0 <= k < |comps| && ListedIn(t, comps[k], listRunning)
  {
    if |comps| > 0 {
      CollectExact(comps[1..], listRunning, t);
      var head := TagAll(comps[0], listRunning(comps[0].id));
      if t in head {
        var i :| 0 <= i < |head| && head[i] == t;
        assert ListedIn(t, comps[0], listRunning);
      }
      if ListedIn(t, comps[0], listRunning) {
        var listed := listRunning(comps[0].id).value;
        var i :| 0 <= i < |listed| && listed[i] == t.instance;
        assert head[i] == t;
      }
      if exists k :: 0 <= k < |comps| && ListedIn(t, comps[k], listRunning) {
        var k :| 0 <= k < |comps| && ListedIn(t, comps[k], listRunning);
        if k > 0 {
          assert comps[1..][k - 1] == comps[k];
        }
      }
      if exists k :: 0 <= k < |comps[1..]| && ListedIn(t, comps[1..][k], listRunning) {
        var k :| 0 <= k < |comps[1..]| && ListedIn(t, comps[1..][k], listRunning);
        assert comps[k + 1] == comps[1..][k];
      }
    }
  }

  /** Instances across compartments. With an id, only that compartment is
      asked, under the name "specified"; without one, every compartment the
      tenancy-wide assembly yields is asked in turn. `listRunning` is the
      compute listing restricted to RUNNING instances by the service. */
  function GetComputeInstances(
    compartmentId: Option<string>,
    tenancy: Option<string>,
    listSub: string -> Result<seq<SdkCompartment>>,
    listRunning: string -> Result<seq<Instance>>): (r: seq<TaggedInstance>)
    ensures Given(compartmentId) ==>
      && (forall t :: t in r ==> t.compartmentName == SpecifiedName)
      && (listRunning(compartmentId.value).Err? ==> r == [])
      && (listRunning(compartmentId.value).Ok? ==>
            |r| == |listRunning(compartmentId.value).value|
            && forall i :: 0 <= i < |r| ==> r[i].instance == listRunning(compartmentId.value).value[i])
    ensures !Given(compartmentId) ==>
      forall t :: t in r <==> exists c :: c in GetAllCompartments(None, tenancy, listSub) && ListedIn(t, c, listRunning)
    ensures !Given(compartmentId) ==> r == Collect(GetAllCompartments(None, tenancy, listSub), listRunning)
  {
    var comps := if Given(compartmentId) then [ServerCompartment(compartmentId.value, SpecifiedName, None)]
                 else GetAllCompartments(None, tenancy, listSub);
    var r := Collect(comps, listRunning);
    assert Given(compartmentId) ==> r == TagAll(comps[0], listRunning(comps[0].id)) + Collect([], listRunning) by {
      if Given(compartmentId) {
        assert comps[1..] == [];
      }
    }
    assert !Given(compartmentId) ==> forall t :: t in r <==> exists c :: c in comps && ListedIn(t, c, listRunning) by {
      forall t ensures t in r <==> exists c :: c in comps && ListedIn(t, c, listRunning) {
        CollectExact(comps, listRunning, t);
        if exists c :: c in comps && ListedIn(t, c, listRunning) {
          var c :| c in comps && ListedIn(t, c, listRunning);
          var k :| 0 <= k < |comps| && comps[k] == c;
        }
      }
    }
    r
  }
}
