/** Resource discovery of the per-compartment server (http_server.py):
    compartment assembly under a parent and the per-compartment instance
    listing. */
module HttpDirectory {
  import opened Results
  import opened Resources
  import Seqs

  /** One element of the compartment list the server answers with. */
  datatype CompartmentEntry = CompartmentEntry(
    id: string,
    name: string,
    description: string,
    lifecycleState: string)

  const RootName := "root (tenancy)"
  const RootDescription := "Root tenancy compartment"
  const NoDescription := "No description"

  /** The pseudo-entry that stands for the tenancy itself. */
  function RootEntry(tenancy: string): CompartmentEntry {
    CompartmentEntry(tenancy, RootName, RootDescription, Active)
  }

  /** An unset or empty description is replaced by a fixed text. */
  function Describe(d: Option<string>): string {
    if d.Some? && d.value != "" then d.value else NoDescription
  }

  function ToEntry(c: SdkCompartment): CompartmentEntry {
    CompartmentEntry(c.id, c.name, Describe(c.description), c.lifecycleState)
  }

  /** The entries produced from one successful sub-compartment listing. */
  function ActiveEntries(listed: seq<SdkCompartment>): (r: seq<CompartmentEntry>)
    ensures |r| <= |listed|
    ensures forall e :: e in r ==> e.lifecycleState == Active && e.description != ""
  {
    var kept := ActiveOnly(listed);
    var r := Seqs.Map(ToEntry, kept);
    assert forall e :: e in r ==> exists c :: c in kept && ToEntry(c) == e by {
      forall e | e in r ensures exists c :: c in kept && ToEntry(c) == e {
        Seqs.MapMembership(ToEntry, kept, e);
      }
    }
    r
  }

  /** An entry is produced exactly for each listed ACTIVE compartment. */
  lemma ActiveEntriesExact(listed: seq<SdkCompartment>, e: CompartmentEntry)
    ensures e in ActiveEntries(listed) <==> exists c :: c in listed && IsActive(c) && ToEntry(c) == e
  {
    Seqs.MapMembership(ToEntry, ActiveOnly(listed), e);
    forall c ensures c in ActiveOnly(listed) <==> c in listed && IsActive(c) {
      ActiveOnlyExact(listed, c);
    }
  }

  /** Entries keep the order of the listing. */
  lemma ActiveEntriesAppend(a: seq<SdkCompartment>, b: seq<SdkCompartment>)
    ensures ActiveEntries(a + b) == ActiveEntries(a) + ActiveEntries(b)
  {
    ActiveOnlyAppend(a, b);
    Seqs.MapAppend(ToEntry, ActiveOnly(a), ActiveOnly(b));
  }

  /** Number of leading root pseudo-entries: one exactly when the parent is the tenancy. */
  function RootCount(parent: string, tenancy: string): nat {
    if parent == tenancy then 1 else 0
  }

  /** Compartments under `parent` (the tenancy when not given). `tenancy` is
      the configuration lookup; `listSub` lists the subtree of an id. */
  function GetCompartments(
    parent: Option<string>,
    tenancy: Option<string>,
    listSub: string -> Result<seq<SdkCompartment>>): (r: Result<seq<CompartmentEntry>>)
    ensures r.Err? <==> tenancy.None?
    ensures r.Err? ==> r.msg == MissingTenancy
    ensures r.Ok? ==>
      var t := tenancy.value;
      var p := EffectiveId(parent, t);
      var k := RootCount(p, t);
      && |r.value| >= k
      && (k == 1 ==> r.value[0] == RootEntry(t))
      && (listSub(p).Err? ==> |r.value| == k)
      && (listSub(p).Ok? ==> r.value[k..] == ActiveEntries(listSub(p).value))
  {
    match tenancy
    case None => Err(MissingTenancy)
    case Some(t) =>
      var p := EffectiveId(parent, t);
      var root := if p == t then [RootEntry(t)] else [];
      match listSub(p)
      case Err(_) => Ok(root)
      case Ok(listed) => Ok(root + ActiveEntries(listed))
  }

  predicate StartsWithRoot(r: seq<CompartmentEntry>, tenancy: string) {
    |r| > 0 && r[0] == RootEntry(tenancy)
  }

  /** The subtree listing does not report the tenancy itself. */
  predicate TenancyNotListed(listing: Result<seq<SdkCompartment>>, tenancy: string) {
    listing.Ok? ==> forall c :: c in listing.value ==> c.id != tenancy
  }

  /** The answer starts with the root pseudo-entry iff the effective parent
      is the tenancy, provided the listing does not itself return the tenancy. */
  lemma RootIffParentIsTenancy(
    parent: Option<string>,
    tenancy: string,
    listSub: string -> Result<seq<SdkCompartment>>)
    requires TenancyNotListed(listSub(EffectiveId(parent, tenancy)), tenancy)
    ensures GetCompartments(parent, Some(tenancy), listSub).Ok?
    ensures StartsWithRoot(GetCompartments(parent, Some(tenancy), listSub).value, tenancy)
            <==> EffectiveId(parent, tenancy) == tenancy
  {
    var p := EffectiveId(parent, tenancy);
    var r := GetCompartments(parent, Some(tenancy), listSub).value;
    if p != tenancy && |r| > 0 {
      var listed := listSub(p).value;
      assert r == ActiveEntries(listed);
      assert r[0] in ActiveEntries(listed);
      ActiveEntriesExact(listed, r[0]);
      var c :| c in listed && IsActive(c) && ToEntry(c) == r[0];
      assert r[0].id != tenancy;
    }
  }

  /** Instances of one compartment, one record per listed instance and in
      listing order, whatever their lifecycle state; a listing error is raised.
      The record copies the fields of the listed instance (timestamps stay in
      seconds here), so in this model it is the listed value itself. */
  function GetComputeInstances(
    compartmentId: string,
    listInstances: string -> Result<seq<Instance>>): (r: Result<seq<Instance>>)
    ensures r.Err? <==> listInstances(compartmentId).Err?
    ensures r.Err? ==> r.msg == listInstances(compartmentId).msg
    ensures r.Ok? ==> |r.value| == |listInstances(compartmentId).value|
    ensures r.Ok? ==> forall i :: 0 <= i < |r.value| ==> r.value[i] == listInstances(compartmentId).value[i]
  {
    match listInstances(compartmentId)
    case Err(m) => Err(m)
    case Ok(listed) => Ok(listed)
  }
}
