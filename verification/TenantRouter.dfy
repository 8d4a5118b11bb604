/** Partition routing, and routing under per-tenant quotas. The string hash is a parameter. */
module TenantRouters {
  import opened Wrappers
  import opened Events
  import opened RateLimiters

  datatype PartitionStrategy = KeyHash | TenantPrefix | RoundRobin

  /** The tenant named in the row, or the source database when there is none. */
  function TenantOf(e: ChangeEvent): string {
    var named :=
      match e.after
      case None => None
      case Some(row) =>
        match row.Get("tenant_id")
        case None => None
        case Some(v) => v.AsString();
    match named
    case Some(t) => t
    case None => e.sourceDatabase
  }

  /** The row of the event names the tenant: it is an object with this string under `tenant_id`. */
  predicate Names(e: ChangeEvent, tenant: string) {
    && e.after.Some? && e.after.value.Object?
    && "tenant_id" in e.after.value.fields && e.after.value.fields["tenant_id"] == String(tenant)
  }

  /** Whom the event is charged to: the tenant its row names, and only without one the source database. */
  ghost predicate ChargedTo(e: ChangeEvent, tenant: string) {
    Names(e, tenant) || ((forall t :: !Names(e, t)) && e.sourceDatabase == tenant)
  }

  /** Every event is charged to exactly one tenant. */
  lemma ChargedToOne(e: ChangeEvent, tenant: string)
    ensures ChargedTo(e, tenant) <==> TenantOf(e) == tenant
  {
    if e.after.Some? && e.after.value.Object? && "tenant_id" in e.after.value.fields {
      var v := e.after.value.fields["tenant_id"];
      if v.String? {
        assert Names(e, v.s);
      }
    }
  }

  datatype PartitionRouter = PartitionRouter(numPartitions: nat, strategy: PartitionStrategy, hash: string -> nat)
  {
    function ResolvePartition(e: ChangeEvent): (p: nat)
      ensures p < numPartitions || p == numPartitions == 0
    {
      if numPartitions <= 1 then 0
      else
        match strategy
        case KeyHash => hash(e.key) % numPartitions
        case TenantPrefix => hash(TenantOf(e)) % numPartitions
        case RoundRobin => hash(e.id) % numPartitions
    }
  }

  /**
   * When two events meet on one partition: exactly when the texts their strategy goes by have hashes that agree
   * modulo the number of partitions, be it their keys, the tenants they are charged to, or their ids.
   */
  lemma MeetExactly(router: PartitionRouter, a: ChangeEvent, b: ChangeEvent, ofA: string, ofB: string)
    requires router.numPartitions > 1
    requires
      match router.strategy
      case KeyHash => ofA == a.key && ofB == b.key
      case TenantPrefix => ChargedTo(a, ofA) && ChargedTo(b, ofB)
      case RoundRobin => ofA == a.id && ofB == b.id
    ensures router.ResolvePartition(a) == router.ResolvePartition(b) <==>
            router.hash(ofA) % router.numPartitions == router.hash(ofB) % router.numPartitions
  {
    if router.strategy == TenantPrefix {
      ChargedToOne(a, ofA);
      ChargedToOne(b, ofB);
    }
  }

  /** Under tenant routing all events charged to one tenant meet on one partition. */
  lemma TenantStaysOnPartition(router: PartitionRouter, a: ChangeEvent, b: ChangeEvent, tenant: string)
    requires router.strategy == TenantPrefix && ChargedTo(a, tenant) && ChargedTo(b, tenant)
    ensures router.ResolvePartition(a) == router.ResolvePartition(b)
  {
    ChargedToOne(a, tenant);
    ChargedToOne(b, tenant);
  }

  class TenantRouter {
    const router: PartitionRouter
    const quotaLimiter: TenantQuotaLimiter

    constructor (numPartitions: nat, hash: string -> nat, quotaLimiter: TenantQuotaLimiter)
      ensures router == PartitionRouter(numPartitions, TenantPrefix, hash) && this.quotaLimiter == quotaLimiter
    {
      router := PartitionRouter(numPartitions, TenantPrefix, hash);
      this.quotaLimiter := quotaLimiter;
    }

    /** A new quota for one tenant; no other tenant's bucket changes. */
    method SetTenantQuota(tenant: string, capacity: nat, rate: real, now: real)
      requires quotaLimiter.Valid()
      modifies quotaLimiter
      ensures quotaLimiter.Valid()
      ensures quotaLimiter.Model()
           == Apply(quotaLimiter.Default(), old(quotaLimiter.Model()), SetQuota(tenant, capacity, rate, now)).0
    {
      quotaLimiter.SetTenantQuota(tenant, capacity, rate, now);
    }

    /** One call on the event's own tenant; an allowed event goes to its partition, a refused one nowhere. */
    method RouteEvent(e: ChangeEvent, now: real) returns (partition: Option<nat>)
      requires quotaLimiter.Valid()
      requires TenantOf(e) in quotaLimiter.limiters ==> now >= quotaLimiter.limiters[TenantOf(e)].lastRefill
      modifies quotaLimiter, quotaLimiter.limiters.Values
      ensures quotaLimiter.Valid()
      ensures
        var (after, verdict) := Apply(quotaLimiter.Default(), old(quotaLimiter.Model()), TryAllow(TenantOf(e), now));
        && quotaLimiter.Model() == after
        && partition == if verdict == Some(true) then Some(router.ResolvePartition(e)) else None
      ensures forall t :: !ChargedTo(e, t) ==> Lookup(quotaLimiter.Model(), t) == Lookup(old(quotaLimiter.Model()), t)
    {
      forall t {
        ChargedToOne(e, t);
      }
      var allowed := quotaLimiter.TryAllow(TenantOf(e), now);
      if allowed {
        partition := Some(router.ResolvePartition(e));
      } else {
        partition := None;
      }
    }
  }

  /** A use of the router: an event to route, or a new quota. */
  datatype Use =
    | Route(event: ChangeEvent, now: real)
    | Quota(tenant: string, capacity: nat, rate: real, now: real)
  {
    function AsOp(): Op {
      match this
      case Route(e, now) => TryAllow(TenantOf(e), now)
      case Quota(tenant, capacity, rate, now) => SetQuota(tenant, capacity, rate, now)
    }
  }

  function AsOps(uses: seq<Use>): seq<Op> {
    seq(|uses|, i requires 0 <= i < |uses| => uses[i].AsOp())
  }

  /** The uses for one tenant: its quotas and the events charged to it, going by their rows. */
  ghost predicate Concerns(use: Use, tenant: string) {
    match use
    case Route(e, _) => ChargedTo(e, tenant)
    case Quota(t, _, _, _) => t == tenant
  }

  ghost function OwnUses(uses: seq<Use>, tenant: string): seq<Use> {
    if uses == [] then []
    else
      var own := OwnUses(uses[..|uses| - 1], tenant);
      if Concerns(uses[|uses| - 1], tenant) then own + [uses[|uses| - 1]] else own
  }

  function Destination(router: PartitionRouter, use: Use, verdict: Option<bool>): Option<nat> {
    if use.Route? && verdict == Some(true) then Some(router.ResolvePartition(use.event)) else None
  }

  /** Where each use for one tenant led in a run over all tenants, in order; a new quota leads nowhere. */
  ghost function Destinations(d: Defaults, router: PartitionRouter, uses: seq<Use>, tenant: string)
    : seq<Option<nat>>
  {
    if uses == [] then []
    else
      var front := uses[..|uses| - 1];
      var last := uses[|uses| - 1];
      var earlier := Destinations(d, router, front, tenant);
      if !Concerns(last, tenant) then earlier
      else earlier + [Destination(router, last, Apply(d, After(d, AsOps(front)), last.AsOp()).1)]
  }

  lemma ConcernsExactly(use: Use, tenant: string)
    ensures Concerns(use, tenant) <==> use.AsOp().tenant == tenant
  {
    if use.Route? {
      ChargedToOne(use.event, tenant);
    }
  }

  lemma {:induction false} OwnUsesAreOwn(uses: seq<Use>, tenant: string)
    ensures AsOps(OwnUses(uses, tenant)) == Own(AsOps(uses), tenant)
  {
    if uses != [] {
      OwnUsesAreOwn(uses[..|uses| - 1], tenant);
      ConcernsExactly(uses[|uses| - 1], tenant);
      assert AsOps(uses)[..|uses| - 1] == AsOps(uses[..|uses| - 1]);
    }
  }

  /**
   * Whatever is sent for other tenants, of the same source database or not, and whatever quotas they are given,
   * the events charged to one tenant are allowed or refused as by a bucket of its own that sees its own events and
   * quotas only, and every one allowed goes to the same partition.
   */
  lemma {:induction false} RoutingDoesNotInterfere(
      d: Defaults, router: PartitionRouter, uses: seq<Use>, tenant: string, sample: ChangeEvent)
    requires router.strategy == TenantPrefix && ChargedTo(sample, tenant)
    ensures
      var verdicts := Alone(d, AsOps(OwnUses(uses, tenant))).1;
      var went := Destinations(d, router, uses, tenant);
      && |went| == |verdicts|
      && forall i :: 0 <= i < |went| ==>
           went[i] == if verdicts[i] == Some(true) then Some(router.ResolvePartition(sample)) else None
  {
    hide Concerns, ChargedTo;
    if uses != [] {
      var front := uses[..|uses| - 1];
      var last := uses[|uses| - 1];
      RoutingDoesNotInterfere(d, router, front, tenant, sample);
      OwnUsesAreOwn(front, tenant);
      TenantsDoNotInterfere(d, AsOps(front), tenant);
      ConcernsExactly(last, tenant);
      if Concerns(last, tenant) {
        if last.Route? {
          ChargedToOne(last.event, tenant);
          TenantStaysOnPartition(router, last.event, sample, tenant);
        }
        var own := OwnUses(front, tenant);
        assert AsOps(own + [last])[..|own|] == AsOps(own);
      }
    }
  }

  /** So it is all the same to a tenant whether the uses for the others happen at all. */
  lemma OthersMayBeAbsent(
      d: Defaults, router: PartitionRouter, uses: seq<Use>, tenant: string, sample: ChangeEvent)
    requires router.strategy == TenantPrefix && ChargedTo(sample, tenant)
    ensures Destinations(d, router, uses, tenant) == Destinations(d, router, OwnUses(uses, tenant), tenant)
  {
    RoutingDoesNotInterfere(d, router, uses, tenant, sample);
    RoutingDoesNotInterfere(d, router, OwnUses(uses, tenant), tenant, sample);
    OwnOfOwn(uses, tenant);
  }

  lemma {:induction false} OwnOfOwn(uses: seq<Use>, tenant: string)
    ensures OwnUses(OwnUses(uses, tenant), tenant) == OwnUses(uses, tenant)
  {
    if uses != [] {
      var own := OwnUses(uses[..|uses| - 1], tenant);
      OwnOfOwn(uses[..|uses| - 1], tenant);
      assert (own + [uses[|uses| - 1]])[..|own|] == own;
    }
  }
}
