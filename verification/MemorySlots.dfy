/** The in-memory stream limiter (query/app/rate_limit.py): every call runs under one lock. */
module MemorySlots {
  import opened PythonLists
  import opened KeyNames

  function TenantKey(tenant: string): string { "stream:tenant:" + tenant }

  function UserKey(tenant: string, principal: string): string { "stream:user:" + tenant + ":" + principal }

  lemma KeysDiffer(tenant: string, userTenant: string, principal: string)
    ensures TenantKey(tenant) != UserKey(userTenant, principal)
  {
    assert TenantKey(tenant)[7] != UserKey(userTenant, principal)[7];
  }

  function Counter(streams: map<string, int>, key: string): int {
    if key in streams then streams[key] else 0
  }

  /** A stream that was granted and not yet released. */
  datatype Grant = Grant(tenant: string, principal: string)

  predicate CountsOn(g: Grant, key: string) {
    TenantKey(g.tenant) == key || UserKey(g.tenant, g.principal) == key
  }

  function HeldOn(grants: map<int, Grant>, key: string): set<int> {
    set h | h in grants && CountsOn(grants[h], key)
  }

  function Bump(streams: map<string, int>, key: string): map<string, int> {
    streams[key := Counter(streams, key) + 1]
  }

  /** A release never takes a counter below zero. */
  function Drop(streams: map<string, int>, key: string): map<string, int> {
    streams[key := Max(Counter(streams, key) - 1, 0)]
  }

  ghost predicate CountsGrants(streams: map<string, int>, grants: map<int, Grant>) {
    forall key :: Counter(streams, key) == |HeldOn(grants, key)|
  }

  lemma KeysEqualIff(t1: string, p1: string, t2: string, p2: string)
    ensures TenantKey(t1) == TenantKey(t2) <==> t1 == t2
    ensures UserKey(t1, p1) == UserKey(t2, p2) <==> t1 + ":" + p1 == t2 + ":" + p2
  {
    var a, b := t1 + ":" + p1, t2 + ":" + p2;
    FramedEqual("stream:tenant:", t1, t2, "");
    FramedEqual("stream:user:", a, b, "");
    assert TenantKey(t1) == "stream:tenant:" + t1 + "" && TenantKey(t2) == "stream:tenant:" + t2 + "";
    assert UserKey(t1, p1) == "stream:user:" + a + "" && UserKey(t2, p2) == "stream:user:" + b + "";
  }

  /** Two tenants' users can share a counter exactly when one name with its colon is a prefix of the other. */
  lemma UserSlotsCollide(t1: string, t2: string)
    ensures (exists p1, p2 :: UserKey(t1, p1) == UserKey(t2, p2)) <==> Overlapping(t1 + ":", t2 + ":")
  {
    CoincideIffOverlapping(t1 + ":", t2 + ":");
    if p1, p2 :| UserKey(t1, p1) == UserKey(t2, p2) { KeysEqualIff(t1, p1, t2, p2); }
    if p1, p2 :| t1 + ":" + p1 == t2 + ":" + p2 { KeysEqualIff(t1, p1, t2, p2); }
  }

  /** A tenant's counter counts the grants of that tenant, whatever the names. */
  lemma TenantsCountedApart(grants: map<int, Grant>, tenant: string)
    ensures HeldOn(grants, TenantKey(tenant)) == set h | h in grants && grants[h].tenant == tenant
  {
    forall h | h in grants ensures CountsOn(grants[h], TenantKey(tenant)) <==> grants[h].tenant == tenant {
      KeysDiffer(tenant, grants[h].tenant, grants[h].principal);
      KeysEqualIff(tenant, "", grants[h].tenant, "");
    }
  }

  /** A user's counter counts the grants of that user, where no tenant's name holds a colon. */
  lemma UsersCountedApart(grants: map<int, Grant>, tenant: string, principal: string)
    requires ':' !in tenant && forall h :: h in grants ==> ':' !in grants[h].tenant
    ensures HeldOn(grants, UserKey(tenant, principal)) == set h | h in grants && grants[h] == Grant(tenant, principal)
  {
    forall h | h in grants
      ensures CountsOn(grants[h], UserKey(tenant, principal)) <==> grants[h] == Grant(tenant, principal)
    {
      var g := grants[h];
      KeysDiffer(g.tenant, tenant, principal);
      KeysEqualIff(g.tenant, g.principal, tenant, principal);
      if g.tenant + ":" + g.principal == tenant + ":" + principal {
        FirstFieldUnique(':', g.tenant, g.principal, tenant, principal);
      }
    }
  }

  lemma GrantAdds(grants: map<int, Grant>, h: int, g: Grant, key: string)
    requires h !in grants
    ensures |HeldOn(grants[h := g], key)| == |HeldOn(grants, key)| + if CountsOn(g, key) then 1 else 0
  {
    assert HeldOn(grants[h := g], key) == HeldOn(grants, key) + (if CountsOn(g, key) then {h} else {});
  }

  lemma GrantCounts(streams: map<string, int>, grants: map<int, Grant>, h: int, g: Grant)
    requires CountsGrants(streams, grants) && h !in grants
    ensures CountsGrants(Bump(Bump(streams, TenantKey(g.tenant)), UserKey(g.tenant, g.principal)), grants[h := g])
  {
    KeysDiffer(g.tenant, g.tenant, g.principal);
    var tenantKey, userKey := TenantKey(g.tenant), UserKey(g.tenant, g.principal);
    var after := Bump(Bump(streams, tenantKey), userKey);
    forall key ensures Counter(after, key) == |HeldOn(grants[h := g], key)| {
      GrantAdds(grants, h, g, key);
      assert Counter(after, key) == Counter(streams, key) + if key == tenantKey || key == userKey then 1 else 0;
    }
  }

  lemma ReleaseCounts(streams: map<string, int>, grants: map<int, Grant>, h: int)
    requires CountsGrants(streams, grants) && h in grants
    ensures var g := grants[h];
            CountsGrants(Drop(Drop(streams, TenantKey(g.tenant)), UserKey(g.tenant, g.principal)), grants - {h})
  {
    var g := grants[h];
    KeysDiffer(g.tenant, g.tenant, g.principal);
    var after := Drop(Drop(streams, TenantKey(g.tenant)), UserKey(g.tenant, g.principal));
    forall key ensures Counter(after, key) == |HeldOn(grants - {h}, key)| {
      GrantAdds(grants - {h}, h, g, key);
      assert (grants - {h})[h := g] == grants;
    }
  }

  class InMemorySlots {
    var streams: map<string, int>
    ghost var grants: map<int, Grant>

    ghost predicate Valid()
      reads this
    {
      CountsGrants(streams, grants)
    }

    constructor ()
      ensures Valid() && grants == map[]
    {
      streams, grants := map[], map[];
    }

    /** acquire_stream: admits exactly when fewer streams than the limits are held, and
        otherwise changes nothing a later call can see. */
    method AcquireStream(ghost h: int, tenant: string, principal: string, tenantLimit: int, userLimit: int)
      returns (ok: bool)
      requires Valid() && h !in grants
      modifies this
      ensures Valid()
      ensures ok <==>
                && |HeldOn(old(grants), TenantKey(tenant))| < tenantLimit
                && |HeldOn(old(grants), UserKey(tenant, principal))| < userLimit
      ensures grants == if ok then old(grants)[h := Grant(tenant, principal)] else old(grants)
    {
      var tenantKey := TenantKey(tenant);
      var userKey := UserKey(tenant, principal);
      if Counter(streams, tenantKey) >= tenantLimit || Counter(streams, userKey) >= userLimit {
        return false;
      }
      GrantCounts(streams, grants, h, Grant(tenant, principal));
      streams := Bump(streams, tenantKey);
      streams := Bump(streams, userKey);
      grants := grants[h := Grant(tenant, principal)];
      return true;
    }

    /** release_stream; a release of a stream that was granted leaves the counters exact. */
    method ReleaseStream(ghost h: int, tenant: string, principal: string)
      modifies this
      ensures forall key ::
                Counter(streams, key) == if key == TenantKey(tenant) || key == UserKey(tenant, principal)
                                         then Max(Counter(old(streams), key) - 1, 0) else Counter(old(streams), key)
      ensures old(Valid()) && h in old(grants) && old(grants)[h] == Grant(tenant, principal) ==>
                Valid() && grants == old(grants) - {h}
    {
      KeysDiffer(tenant, tenant, principal);
      if Valid() && h in grants && grants[h] == Grant(tenant, principal) {
        ReleaseCounts(streams, grants, h);
        grants := grants - {h};
      }
      streams := Drop(streams, TenantKey(tenant));
      streams := Drop(streams, UserKey(tenant, principal));
    }
  }
}
