/** The records the identity and compute services hand back, as far as the
    two metric servers read them, and the lifecycle filter both servers apply
    to compartment listings. */
module Resources {
  import opened Results
  import Seqs

  const Active := "ACTIVE"
  const Running := "RUNNING"

  /** Text of the KeyError raised when the configuration has no tenancy entry.
      Client setup already reads that entry and re-raises on failure, so in
      the running service this path is never taken; it is kept to model each
      method on its own. */
  const MissingTenancy := "'tenancy'"

  /** A compartment as the identity service lists it; the description may be unset. */
  datatype SdkCompartment = SdkCompartment(
    id: string,
    name: string,
    description: Option<string>,
    lifecycleState: string)

  /** A compute instance with the fields the servers copy into their answers.
      Creation time is in seconds; it may be unset. */
  datatype Instance = Instance(
    id: string,
    displayName: string,
    lifecycleState: string,
    availabilityDomain: string,
    compartmentId: string,
    shape: string,
    timeCreated: Option<int>)

  /** Python truthiness of an optional id: absent and empty both count as "not given". */
  predicate Given(id: Option<string>) {
    id.Some? && id.value != ""
  }

  /** The id a call works on: the one given, else the tenancy. */
  function EffectiveId(id: Option<string>, tenancy: string): string {
    if Given(id) then id.value else tenancy
  }

  predicate IsActive(c: SdkCompartment) {
    c.lifecycleState == Active
  }

  predicate IsRunning(i: Instance) {
    i.lifecycleState == Running
  }

  /** The listed compartments whose state is ACTIVE, in listing order. */
  function ActiveOnly(listed: seq<SdkCompartment>): seq<SdkCompartment> {
    Seqs.Filter(IsActive, listed)
  }

  /** A compartment survives the filter exactly when it was listed and is ACTIVE. */
  lemma ActiveOnlyExact(listed: seq<SdkCompartment>, c: SdkCompartment)
    ensures c in ActiveOnly(listed) <==> c in listed && IsActive(c)
  {
    if c in listed && IsActive(c) {
      Seqs.FilterComplete(IsActive, listed, c);
    }
  }

  /** The filter keeps the relative order of the listing. */
  lemma ActiveOnlyAppend(a: seq<SdkCompartment>, b: seq<SdkCompartment>)
    ensures ActiveOnly(a + b) == ActiveOnly(a) + ActiveOnly(b)
  {
    Seqs.FilterAppend(IsActive, a, b);
  }
}
