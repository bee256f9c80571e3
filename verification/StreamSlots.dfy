/** Concurrent stream slots (query/app/rate_limit.py) as the Redis protocol takes and
    returns them, its clients interleaving between individual commands.

    A client runs INCR tenant, INCR user, compares, and on failure DECR tenant,
    DECR user; a holder releases with DECR tenant, DECR user.  A schedule is any
    sequence of client names, each name letting that client run one command. */
module StreamSlots {
  import opened PythonLists
  import opened AdmissionLimits
  import opened KeyNames
  import opened SetSizes

  function TenantKey(tenant: string): string { "rlimit:" + tenant + ":streams" }

  function UserKey(tenant: string, principal: string): string { "rlimit:" + tenant + ":" + principal + ":streams" }

  /** Where a client stands; the numbers are what its INCR commands returned. */
  datatype Pc =
    | Idle
    | TenantCounted(tenantSeen: int)
    | Holding(tenantSeen: int, userSeen: int)
    | Refusing(tenantSeen: int, userSeen: int)
    | RefusingUser(userSeen: int)
    | Refused
    | ReleasingUser(userSeen: int)
    | Released

  datatype Client = Client(tenant: string, principal: string, pc: Pc)

  datatype State = State(counters: map<string, int>, clients: map<int, Client>)

  function Counter(counters: map<string, int>, key: string): int {
    if key in counters then counters[key] else 0
  }

  function Incr(s: State, key: string): map<string, int> {
    s.counters[key := Counter(s.counters, key) + 1]
  }

  function Decr(s: State, key: string): map<string, int> {
    s.counters[key := Counter(s.counters, key) - 1]
  }

  function Move(s: State, c: int, counters: map<string, int>, pc: Pc): State
    requires c in s.clients
  {
    State(counters, s.clients[c := s.clients[c].(pc := pc)])
  }

  /** The next command of client c. */
  function Step(s: State, c: int, l: Limits): (s': State)
    ensures s'.clients.Keys == s.clients.Keys
  {
    if c !in s.clients then s
    else
      var client := s.clients[c];
      var tenantKey, userKey := TenantKey(client.tenant), UserKey(client.tenant, client.principal);
      match client.pc
      case Idle => Move(s, c, Incr(s, tenantKey), TenantCounted(Counter(s.counters, tenantKey) + 1))
      case TenantCounted(t) =>
        var u := Counter(s.counters, userKey) + 1;
        Move(s, c, Incr(s, userKey),
             if t > TenantLimit(l, client.tenant) || u > l.user then Refusing(t, u) else Holding(t, u))
      case Holding(_, u) => Move(s, c, Decr(s, tenantKey), ReleasingUser(u))
      case Refusing(_, u) => Move(s, c, Decr(s, tenantKey), RefusingUser(u))
      case RefusingUser(_) => Move(s, c, Decr(s, userKey), Refused)
      case ReleasingUser(_) => Move(s, c, Decr(s, userKey), Released)
      case Refused => s
      case Released => s
  }

  function Run(s: State, schedule: seq<int>, l: Limits): State
    decreases |schedule|
  {
    if schedule == [] then s else Run(Step(s, schedule[0], l), schedule[1..], l)
  }

  ghost predicate Initial(s: State) {
    s.counters == map[] && forall c :: c in s.clients ==> s.clients[c].pc == Idle
  }

  // ----- who holds what -----

  function TenantHolders(s: State, tenant: string): set<int> {
    set c | c in s.clients && s.clients[c].pc.Holding? && s.clients[c].tenant == tenant
  }

  function UserHolders(s: State, tenant: string, principal: string): set<int> {
    set c | c in s.clients && s.clients[c].pc.Holding? && s.clients[c].tenant == tenant
        && s.clients[c].principal == principal
  }

  datatype Slot = TenantSlot | UserSlot

  /** One increment, made by a client and not yet undone. */
  datatype Token = Token(client: int, slot: Slot)

  function ClientOf(t: Token): int { t.client }

  predicate Outstanding(pc: Pc, slot: Slot) {
    match slot
    case TenantSlot => pc.TenantCounted? || pc.Holding? || pc.Refusing?
    case UserSlot => pc.Holding? || pc.Refusing? || pc.RefusingUser? || pc.ReleasingUser?
  }

  function Seen(pc: Pc, slot: Slot): int
    requires Outstanding(pc, slot)
  {
    match slot case TenantSlot => pc.tenantSeen case UserSlot => pc.userSeen
  }

  function KeyOf(client: Client, slot: Slot): string {
    match slot
    case TenantSlot => TenantKey(client.tenant)
    case UserSlot => UserKey(client.tenant, client.principal)
  }

  predicate IsOutstanding(s: State, t: Token, key: string) {
    t.client in s.clients && Outstanding(s.clients[t.client].pc, t.slot) && KeyOf(s.clients[t.client], t.slot) == key
  }

  /** The increments outstanding on a counter. */
  function OutstandingOn(s: State, key: string): set<Token> {
    set c, slot | c in s.clients && slot in {TenantSlot, UserSlot}
        && IsOutstanding(s, Token(c, slot), key) :: Token(c, slot)
  }

  // ----- the ledger: outstanding increments in the order they were made -----

  type Ledger = map<string, seq<Token>>

  function Entries(ledger: Ledger, key: string): seq<Token> {
    if key in ledger then ledger[key] else []
  }

  /** The entries are the outstanding increments, each once, and a client never read a
      number below its place in the queue. */
  ghost predicate EntriesOk(s: State, entries: seq<Token>, key: string) {
    && Counter(s.counters, key) == |entries|
    && (forall i :: 0 <= i < |entries| ==>
          IsOutstanding(s, entries[i], key) && Seen(s.clients[entries[i].client].pc, entries[i].slot) > i)
    && (forall i, j :: 0 <= i < j < |entries| ==> entries[i] != entries[j])
    && (forall t :: IsOutstanding(s, t, key) ==> t in entries)
  }

  ghost predicate KeyOk(s: State, ledger: Ledger, key: string) {
    EntriesOk(s, Entries(ledger, key), key)
  }

  ghost predicate LedgerOk(s: State, ledger: Ledger) {
    forall key :: KeyOk(s, ledger, key)
  }

  /** Only client c moved, and only in `slot`: its other increment, and what it read there, stand. */
  ghost predicate Moved(s: State, s': State, c: int, slot: Slot) {
    && c in s.clients && s'.clients.Keys == s.clients.Keys
    && (forall d :: d in s.clients && d != c ==> s'.clients[d] == s.clients[d])
    && s'.clients[c].tenant == s.clients[c].tenant && s'.clients[c].principal == s.clients[c].principal
    && forall other :: other != slot ==>
         && (Outstanding(s'.clients[c].pc, other) <==> Outstanding(s.clients[c].pc, other))
         && (Outstanding(s.clients[c].pc, other) ==> Seen(s'.clients[c].pc, other) == Seen(s.clients[c].pc, other))
  }

  lemma OtherTokensKept(s: State, s': State, c: int, slot: Slot, t: Token, key: string)
    requires Moved(s, s', c, slot) && t != Token(c, slot)
    ensures IsOutstanding(s', t, key) <==> IsOutstanding(s, t, key)
    ensures IsOutstanding(s, t, key) ==>
              Seen(s'.clients[t.client].pc, t.slot) == Seen(s.clients[t.client].pc, t.slot)
  {
    if t.client == c { assert t.slot != slot; }
  }

  lemma KeyKept(s: State, s': State, c: int, slot: Slot, entries: seq<Token>, key: string)
    requires Moved(s, s', c, slot) && KeyOf(s.clients[c], slot) != key
    requires Counter(s'.counters, key) == Counter(s.counters, key)
    requires EntriesOk(s, entries, key)
    ensures EntriesOk(s', entries, key)
  {
    forall t ensures IsOutstanding(s', t, key) <==> IsOutstanding(s, t, key) {
      if t != Token(c, slot) { OtherTokensKept(s, s', c, slot, t, key); }
    }
    forall i | 0 <= i < |entries| ensures Seen(s'.clients[entries[i].client].pc, entries[i].slot) > i {
      OtherTokensKept(s, s', c, slot, entries[i], key);
    }
  }

  lemma Pushed(s: State, s': State, c: int, slot: Slot, entries: seq<Token>, key: string)
    requires Moved(s, s', c, slot) && KeyOf(s.clients[c], slot) == key
    requires !Outstanding(s.clients[c].pc, slot) && Outstanding(s'.clients[c].pc, slot)
    requires EntriesOk(s, entries, key)
    requires Counter(s'.counters, key) == Counter(s.counters, key) + 1 == Seen(s'.clients[c].pc, slot)
    ensures EntriesOk(s', entries + [Token(c, slot)], key)
  {
    var longer := entries + [Token(c, slot)];
    forall t | IsOutstanding(s', t, key) ensures t in longer {
      if t != Token(c, slot) {
        OtherTokensKept(s, s', c, slot, t, key);
        assert t in entries;
      } else {
        assert longer[|entries|] == t;
      }
    }
    forall i | 0 <= i < |entries|
      ensures IsOutstanding(s', entries[i], key) && Seen(s'.clients[entries[i].client].pc, entries[i].slot) > i
      ensures entries[i] != Token(c, slot)
    {
      OtherTokensKept(s, s', c, slot, entries[i], key);
    }
  }

  function Without(entries: seq<Token>, at: nat): (rest: seq<Token>)
    requires at < |entries|
    ensures |rest| == |entries| - 1
    ensures forall i :: 0 <= i < |rest| ==> rest[i] == entries[if i < at then i else i + 1]
  {
    seq(|entries| - 1, i requires 0 <= i < |entries| - 1 => entries[if i < at then i else i + 1])
  }

  lemma WithoutMembers(entries: seq<Token>, at: nat)
    requires at < |entries| && forall i, j :: 0 <= i < j < |entries| ==> entries[i] != entries[j]
    ensures var rest := Without(entries, at);
            && (forall i, j :: 0 <= i < j < |rest| ==> rest[i] != rest[j])
            && (forall t :: t in rest <==> t in entries && t != entries[at])
  {
    var rest := Without(entries, at);
    forall t | t in entries && t != entries[at] ensures t in rest {
      var i :| 0 <= i < |entries| && entries[i] == t;
      assert rest[if i < at then i else i - 1] == t;
    }
  }

  lemma Popped(s: State, s': State, c: int, slot: Slot, entries: seq<Token>, key: string) returns (rest: seq<Token>)
    requires Moved(s, s', c, slot) && KeyOf(s.clients[c], slot) == key
    requires Outstanding(s.clients[c].pc, slot) && !Outstanding(s'.clients[c].pc, slot)
    requires EntriesOk(s, entries, key)
    requires Counter(s'.counters, key) == Counter(s.counters, key) - 1
    ensures EntriesOk(s', rest, key)
  {
    var gone := Token(c, slot);
    assert IsOutstanding(s, gone, key);
    var at :| 0 <= at < |entries| && entries[at] == gone;
    rest := Without(entries, at);
    WithoutMembers(entries, at);
    forall t | t != gone ensures IsOutstanding(s', t, key) <==> IsOutstanding(s, t, key) {
      OtherTokensKept(s, s', c, slot, t, key);
    }
    forall i | 0 <= i < |rest|
      ensures IsOutstanding(s', rest[i], key) && Seen(s'.clients[rest[i].client].pc, rest[i].slot) > i
    {
      assert rest[i] in rest;
      OtherTokensKept(s, s', c, slot, rest[i], key);
    }
  }

  /** The slot whose counter client c touches next. */
  function NextSlot(pc: Pc): Slot
  {
    if pc.Idle? || pc.Holding? || pc.Refusing? then TenantSlot else UserSlot
  }

  lemma StepMoves(s: State, c: int, l: Limits)
    requires c in s.clients && !s.clients[c].pc.Refused? && !s.clients[c].pc.Released?
    ensures var s' := Step(s, c, l);
            var slot := NextSlot(s.clients[c].pc);
            var key := KeyOf(s.clients[c], slot);
            && Moved(s, s', c, slot)
            && (forall k :: k != key ==> Counter(s'.counters, k) == Counter(s.counters, k))
            && (if s.clients[c].pc.Idle? || s.clients[c].pc.TenantCounted?
                then && !Outstanding(s.clients[c].pc, slot) && Outstanding(s'.clients[c].pc, slot)
                     && Counter(s'.counters, key) == Counter(s.counters, key) + 1 == Seen(s'.clients[c].pc, slot)
                else && Outstanding(s.clients[c].pc, slot) && !Outstanding(s'.clients[c].pc, slot)
                     && Counter(s'.counters, key) == Counter(s.counters, key) - 1)
  {
  }

  lemma StepKeepsLedger(s: State, c: int, l: Limits, ledger: Ledger) returns (ledger': Ledger)
    requires LedgerOk(s, ledger)
    ensures LedgerOk(Step(s, c, l), ledger')
  {
    var s' := Step(s, c, l);
    if c !in s.clients || s.clients[c].pc.Refused? || s.clients[c].pc.Released? {
      ledger' := ledger;
    } else {
      StepMoves(s, c, l);
      var slot := NextSlot(s.clients[c].pc);
      var key := KeyOf(s.clients[c], slot);
      assert KeyOk(s, ledger, key);
      if s.clients[c].pc.Idle? || s.clients[c].pc.TenantCounted? {
        Pushed(s, s', c, slot, Entries(ledger, key), key);
        ledger' := ledger[key := Entries(ledger, key) + [Token(c, slot)]];
      } else {
        var rest := Popped(s, s', c, slot, Entries(ledger, key), key);
        ledger' := ledger[key := rest];
      }
      forall k ensures KeyOk(s', ledger', k) {
        if k != key {
          assert KeyOk(s, ledger, k);
          KeyKept(s, s', c, slot, Entries(ledger, k), k);
        }
      }
    }
  }

  lemma {:induction false} RunKeepsLedger(s: State, schedule: seq<int>, l: Limits, ledger: Ledger)
    returns (ledger': Ledger)
    requires LedgerOk(s, ledger)
    ensures LedgerOk(Run(s, schedule, l), ledger')
    decreases |schedule|
  {
    if schedule == [] {
      ledger' := ledger;
    } else {
      var next := StepKeepsLedger(s, schedule[0], l, ledger);
      ledger' := RunKeepsLedger(Step(s, schedule[0], l), schedule[1..], l, next);
    }
  }

  lemma InitialLedger(s: State)
    requires Initial(s)
    ensures LedgerOk(s, map[])
  {
    forall key ensures KeyOk(s, map[], key) {}
  }

  /** A holder decided on numbers within its limits. */
  ghost predicate HoldersWithinLimits(s: State, l: Limits) {
    forall c :: c in s.clients && s.clients[c].pc.Holding? ==>
      s.clients[c].pc.tenantSeen <= TenantLimit(l, s.clients[c].tenant) && s.clients[c].pc.userSeen <= l.user
  }

  lemma {:induction false} RunKeepsHolders(s: State, schedule: seq<int>, l: Limits)
    requires HoldersWithinLimits(s, l)
    ensures HoldersWithinLimits(Run(s, schedule, l), l)
    decreases |schedule|
  {
    if schedule != [] {
      assert HoldersWithinLimits(Step(s, schedule[0], l), l);
      RunKeepsHolders(Step(s, schedule[0], l), schedule[1..], l);
    }
  }

  // ----- the theorems -----

  /** Over every interleaving each counter equals the number of increments outstanding
      on it; so no counter is ever negative. */
  lemma CountersAreExact(start: State, schedule: seq<int>, l: Limits, key: string)
    requires Initial(start)
    ensures var s := Run(start, schedule, l);
            Counter(s.counters, key) == |OutstandingOn(s, key)|
  {
    InitialLedger(start);
    var ledger := RunKeepsLedger(start, schedule, l, map[]);
    var s := Run(start, schedule, l);
    assert KeyOk(s, ledger, key);
    var entries := Entries(ledger, key);
    ImageSize(entries, |entries|, (t: Token) => t);
    assert OutstandingOn(s, key) == Image(entries, |entries|, (t: Token) => t) by {
      forall t ensures t in OutstandingOn(s, key) <==> t in entries {
        assert IsOutstanding(s, t, key) <==> t in entries;
        assert t == Token(t.client, t.slot);
      }
    }
  }

  /** Clients holding one slot each, all queued on one counter below `limit`, are at most `limit`. */
  lemma QueueBoundsHolders(s: State, entries: seq<Token>, key: string, slot: Slot, holders: set<int>, limit: int)
    requires EntriesOk(s, entries, key)
    requires forall c :: c in holders ==> IsOutstanding(s, Token(c, slot), key) && Seen(s.clients[c].pc, slot) <= limit
    ensures |holders| <= Max(limit, 0)
  {
    var n := Min(|entries|, Max(limit, 0));
    var front := Image(entries, n, ClientOf);
    forall c | c in holders ensures c in front {
      var i :| 0 <= i < |entries| && entries[i] == Token(c, slot);
      assert i < n;
      assert ClientOf(entries[i]) == c;
    }
    ImageSize(entries, n, ClientOf);
    assert holders <= front;
    SubsetSize(holders, front);
  }

  /** Whatever the interleaving and however many clients, at no moment do more clients
      hold a slot than their tenant's limit, or of one user than the user limit. */
  lemma SlotsAreBounded(start: State, schedule: seq<int>, l: Limits, tenant: string, principal: string)
    requires Initial(start)
    ensures var s := Run(start, schedule, l);
            && |TenantHolders(s, tenant)| <= Max(if tenant in l.tenant then l.tenant[tenant] else l.tenantDefault, 0)
            && |UserHolders(s, tenant, principal)| <= Max(l.user, 0)
  {
    InitialLedger(start);
    var ledger := RunKeepsLedger(start, schedule, l, map[]);
    RunKeepsHolders(start, schedule, l);
    var s := Run(start, schedule, l);
    assert KeyOk(s, ledger, TenantKey(tenant)) && KeyOk(s, ledger, UserKey(tenant, principal));
    QueueBoundsHolders(s, Entries(ledger, TenantKey(tenant)), TenantKey(tenant), TenantSlot,
                       TenantHolders(s, tenant), TenantLimit(l, tenant));
    QueueBoundsHolders(s, Entries(ledger, UserKey(tenant, principal)), UserKey(tenant, principal), UserSlot,
                       UserHolders(s, tenant, principal), l.user);
  }

  // ----- when an acquire is refused -----

  lemma {:induction false} RunAppend(s: State, a: seq<int>, b: seq<int>, l: Limits)
    ensures Run(s, a + b, l) == Run(Run(s, a, l), b, l)
    decreases |a|
  {
    if a == [] {
      assert a + b == b;
    } else {
      assert (a + b)[0] == a[0] && (a + b)[1..] == a[1..] + b;
      RunAppend(Step(s, a[0], l), a[1..], b, l);
    }
  }

  lemma RunOne(s: State, c: int, l: Limits)
    ensures Run(s, [c], l) == Step(s, c, l)
  {
    assert Run(Step(s, c, l), [c][1..], l) == Step(s, c, l);
  }

  lemma {:induction false} OthersLeaveAlone(s: State, schedule: seq<int>, l: Limits, c: int)
    requires c in s.clients && c !in schedule
    ensures c in Run(s, schedule, l).clients && Run(s, schedule, l).clients[c] == s.clients[c]
    decreases |schedule|
  {
    if schedule != [] {
      assert schedule[0] != c && c !in schedule[1..];
      OthersLeaveAlone(Step(s, schedule[0], l), schedule[1..], l, c);
    }
  }

  /** The state in which client c, having counted itself to its tenant at s, counts itself to its user. */
  function AtDecision(s: State, c: int, between: seq<int>, l: Limits): State {
    Run(Step(s, c, l), between, l)
  }

  /** Whatever other clients do before and between its two INCR commands, an acquire is
      refused exactly when the first found the tenant's limit of increments outstanding or
      the second found the user's. */
  lemma RefusedIff(start: State, before: seq<int>, between: seq<int>, l: Limits, c: int)
    requires Initial(start) && c !in between
    requires var s := Run(start, before, l); c in s.clients && s.clients[c].pc.Idle?
    ensures var s := Run(start, before, l);
            var client, s1 := s.clients[c], AtDecision(s, c, between, l);
            var decided := Step(s1, c, l);
            && c in s1.clients && (decided.clients[c].pc.Holding? || decided.clients[c].pc.Refusing?)
            && (decided.clients[c].pc.Refusing? <==>
                  || |OutstandingOn(s, KeyOf(client, TenantSlot))| >= TenantLimit(l, client.tenant)
                  || |OutstandingOn(s1, KeyOf(client, UserSlot))| >= l.user)
  {
    var s := Run(start, before, l);
    var client := s.clients[c];
    OthersLeaveAlone(Step(s, c, l), between, l, c);
    RunOne(s, c, l);
    RunAppend(start, before, [c], l);
    RunAppend(start, before + [c], between, l);
    CountersAreExact(start, before, l, KeyOf(client, TenantSlot));
    CountersAreExact(start, before + [c] + between, l, KeyOf(client, UserSlot));
  }

  // ----- names that share a counter -----

  /** A client's tenant and principal. */
  type Name = (string, string)

  function NameOf(client: Client): Name { (client.tenant, client.principal) }

  function TenantCounter(n: Name): string { TenantKey(n.0) }

  function UserCounter(n: Name): string { UserKey(n.0, n.1) }

  /** Which counters coincide: a tenant's with a user's when the tenant is named like the user
      joined to its tenant, and two users' when their joined names are the same. */
  lemma CountersCoincideIff(m: Name, n: Name)
    ensures TenantCounter(m) == TenantCounter(n) <==> m.0 == n.0
    ensures TenantCounter(m) == UserCounter(n) <==> m.0 == n.0 + ":" + n.1
    ensures UserCounter(m) == UserCounter(n) <==> m.0 + ":" + m.1 == n.0 + ":" + n.1
  {
    var m2, n2 := m.0 + ":" + m.1, n.0 + ":" + n.1;
    assert UserCounter(m) == "rlimit:" + m2 + ":streams" && UserCounter(n) == "rlimit:" + n2 + ":streams";
    FramedEqual("rlimit:", m.0, n.0, ":streams");
    FramedEqual("rlimit:", m.0, n2, ":streams");
    FramedEqual("rlimit:", m2, n2, ":streams");
  }

  /** The users of two tenants can share a counter exactly when one tenant's name, with its
      colon, is a prefix of the other's. */
  lemma UserCountersCollide(t1: string, t2: string)
    ensures (exists p1, p2 :: UserKey(t1, p1) == UserKey(t2, p2)) <==> Overlapping(t1 + ":", t2 + ":")
  {
    CoincideIffOverlapping(t1 + ":", t2 + ":");
    if p1, p2 :| UserKey(t1, p1) == UserKey(t2, p2) { CountersCoincideIff((t1, p1), (t2, p2)); }
    if p1, p2 :| t1 + ":" + p1 == t2 + ":" + p2 { CountersCoincideIff((t1, p1), (t2, p2)); }
  }

  /** A tenant can share its counter with a user of another tenant exactly when the other
      tenant's name, with its colon, is a prefix of its own. */
  lemma TenantCounterCollides(t1: string, t2: string)
    ensures (exists p :: TenantKey(t1) == UserKey(t2, p)) <==> t2 + ":" <= t1
  {
    if p :| TenantKey(t1) == UserKey(t2, p) {
      CountersCoincideIff((t1, ""), (t2, p));
      assert t1[..|t2| + 1] == t2 + ":";
    }
    if t2 + ":" <= t1 {
      var p := t1[|t2| + 1..];
      assert t2 + ":" + p == t1;
      CountersCoincideIff((t1, ""), (t2, p));
    }
  }

  /** Two names share a counter only when they are of the same tenant, or the same user. */
  ghost predicate SeparateNames(names: set<Name>) {
    forall m, n :: m in names && n in names ==>
      UserCounter(m) != TenantCounter(n) && (UserCounter(m) == UserCounter(n) ==> m == n)
  }

  /** Tenants whose names hold no colon are enough. */
  lemma ColonFreeSeparates(names: set<Name>)
    requires forall n :: n in names ==> ':' !in n.0
    ensures SeparateNames(names)
  {
    forall m, n | m in names && n in names
      ensures UserCounter(m) != TenantCounter(n) && (UserCounter(m) == UserCounter(n) ==> m == n)
    {
      CountersCoincideIff(n, m);
      CountersCoincideIff(m, n);
      if m.0 + ":" + m.1 == n.0 + ":" + n.1 { FirstFieldUnique(':', m.0, m.1, n.0, n.1); }
    }
  }

  // ----- outstanding increments and slots held -----

  ghost predicate Named(s: State, names: set<Name>) {
    forall c :: c in s.clients ==> NameOf(s.clients[c]) in names
  }

  lemma {:induction false} RunKeepsNames(s: State, schedule: seq<int>, l: Limits, names: set<Name>)
    requires Named(s, names)
    ensures Named(Run(s, schedule, l), names)
    decreases |schedule|
  {
    if schedule != [] {
      assert Named(Step(s, schedule[0], l), names);
      RunKeepsNames(Step(s, schedule[0], l), schedule[1..], l, names);
    }
  }

  /** Clients of a tenant whose increment of its counter stands for no slot: they have not
      decided yet, or are on their way to being refused. */
  function TenantTransit(s: State, tenant: string): set<int> {
    set c | c in s.clients && s.clients[c].tenant == tenant
        && (s.clients[c].pc.TenantCounted? || s.clients[c].pc.Refusing?)
  }

  /** Likewise for a user's counter; a client that is releasing its slot is among them. */
  function UserTransit(s: State, tenant: string, principal: string): set<int> {
    set c | c in s.clients && NameOf(s.clients[c]) == (tenant, principal) && !s.clients[c].pc.Holding?
            && Outstanding(s.clients[c].pc, UserSlot)
  }

  lemma TokensOfClients(s: State, key: string, slot: Slot, clients: set<int>)
    requires forall t :: IsOutstanding(s, t, key) <==> t.slot == slot && t.client in clients
    ensures |OutstandingOn(s, key)| == |clients|
  {
    var tokens := Tagged(clients, (c: int) => Token(c, slot));
    forall t ensures t in OutstandingOn(s, key) <==> t in tokens {
      assert t == Token(t.client, t.slot);
      assert t in OutstandingOn(s, key) <==> IsOutstanding(s, t, key);
    }
    assert OutstandingOn(s, key) == tokens;
    TaggedSize(clients, (c: int) => Token(c, slot));
  }

  /** Where no names share a counter, the increments outstanding on it are the slots held and
      the clients in transit. */
  lemma OutstandingSplits(s: State, names: set<Name>, n: Name)
    requires SeparateNames(names) && Named(s, names) && n in names
    ensures |OutstandingOn(s, TenantCounter(n))| == |TenantHolders(s, n.0)| + |TenantTransit(s, n.0)|
    ensures |OutstandingOn(s, UserCounter(n))| == |UserHolders(s, n.0, n.1)| + |UserTransit(s, n.0, n.1)|
  {
    var tenants := TenantHolders(s, n.0) + TenantTransit(s, n.0);
    var users := UserHolders(s, n.0, n.1) + UserTransit(s, n.0, n.1);
    forall t ensures IsOutstanding(s, t, TenantCounter(n)) <==> t.slot == TenantSlot && t.client in tenants {
      if t.client in s.clients { CountersCoincideIff(NameOf(s.clients[t.client]), n); }
    }
    forall t ensures IsOutstanding(s, t, UserCounter(n)) <==> t.slot == UserSlot && t.client in users {
      if t.client in s.clients {
        CountersCoincideIff(NameOf(s.clients[t.client]), n);
        CountersCoincideIff(n, NameOf(s.clients[t.client]));
      }
    }
    TokensOfClients(s, TenantCounter(n), TenantSlot, tenants);
    TokensOfClients(s, UserCounter(n), UserSlot, users);
    assert TenantHolders(s, n.0) !! TenantTransit(s, n.0) && UserHolders(s, n.0, n.1) !! UserTransit(s, n.0, n.1);
  }

  /** A slot is free to the client at both of its commands. */
  predicate SlotFree(s: State, s1: State, client: Client, l: Limits) {
    && |TenantHolders(s, client.tenant)| < TenantLimit(l, client.tenant)
    && |UserHolders(s1, client.tenant, client.principal)| < l.user
  }

  /** With a slot free an acquire is refused all the same exactly when clients in transit are
      as many as the free slots: the tenant's at the first command, or the user's at the
      second. */
  lemma RefusedEarlyIff(start: State, before: seq<int>, between: seq<int>, l: Limits, c: int, names: set<Name>)
    requires Initial(start) && c !in between && SeparateNames(names) && Named(start, names)
    requires var s := Run(start, before, l); c in s.clients && s.clients[c].pc.Idle?
    ensures var s := Run(start, before, l);
            var client, s1 := s.clients[c], AtDecision(s, c, between, l);
            && c in s1.clients
            && (SlotFree(s, s1, client, l) ==>
                  (Step(s1, c, l).clients[c].pc.Refusing? <==>
                     || |TenantTransit(s, client.tenant)|
                        >= TenantLimit(l, client.tenant) - |TenantHolders(s, client.tenant)|
                     || |UserTransit(s1, client.tenant, client.principal)|
                        >= l.user - |UserHolders(s1, client.tenant, client.principal)|))
  {
    var s := Run(start, before, l);
    var s1 := AtDecision(s, c, between, l);
    RefusedIff(start, before, between, l, c);
    RunKeepsNames(start, before, l, names);
    RunKeepsNames(s, [c], l, names);
    RunOne(s, c, l);
    RunKeepsNames(Step(s, c, l), between, l, names);
    OutstandingSplits(s, names, NameOf(s.clients[c]));
    OutstandingSplits(s1, names, NameOf(s.clients[c]));
  }

  // ----- when nobody is between commands -----

  ghost predicate Quiescent(s: State) {
    forall c :: c in s.clients ==> var pc := s.clients[c].pc; pc.Idle? || pc.Holding? || pc.Refused? || pc.Released?
  }

  /** The counters of a client's tenant and user say how many slots they hold. */
  predicate CountsSlots(s: State, client: Client) {
    && Counter(s.counters, TenantKey(client.tenant)) == |TenantHolders(s, client.tenant)|
    && Counter(s.counters, UserKey(client.tenant, client.principal)) ==
        |UserHolders(s, client.tenant, client.principal)|
  }

  lemma QuiescentCounters(start: State, schedule: seq<int>, l: Limits, names: set<Name>, c: int)
    requires Initial(start) && Named(start, names) && SeparateNames(names) && c in start.clients
    requires Quiescent(Run(start, schedule, l))
    ensures CountsSlots(Run(start, schedule, l), start.clients[c])
  {
    var s, client := Run(start, schedule, l), start.clients[c];
    var tenant, principal := client.tenant, client.principal;
    RunKeepsNames(start, schedule, l, names);
    CountersAreExact(start, schedule, l, TenantKey(tenant));
    CountersAreExact(start, schedule, l, UserKey(tenant, principal));
    assert NameOf(client) in names;
    OutstandingSplits(s, names, NameOf(client));
    forall d | d in s.clients ensures d !in TenantTransit(s, tenant) && d !in UserTransit(s, tenant, principal) {
      var pc := s.clients[d].pc;
      assert pc.Idle? || pc.Holding? || pc.Refused? || pc.Released?;
    }
    assert TenantTransit(s, tenant) == {} && UserTransit(s, tenant, principal) == {};
  }

  /** In every run of clients with these names, counters count slots whenever all is quiet. */
  ghost predicate AlwaysCountsSlots(names: set<Name>) {
    forall start, schedule, l, c ::
      Initial(start) && Named(start, names) && c in start.clients && Quiescent(Run(start, schedule, l)) ==>
        CountsSlots(Run(start, schedule, l), start.clients[c])
  }

  /** That is so exactly when no two of the names share a counter they should not. */
  lemma CountsSlotsIff(names: set<Name>)
    ensures AlwaysCountsSlots(names) <==> SeparateNames(names)
  {
    if SeparateNames(names) {
      forall start, schedule, l, c |
        Initial(start) && Named(start, names) && c in start.clients && Quiescent(Run(start, schedule, l))
        ensures CountsSlots(Run(start, schedule, l), start.clients[c])
      {
        QuiescentCounters(start, schedule, l, names, c);
      }
    } else {
      var m, n :| m in names && n in names
                  && !(UserCounter(m) != TenantCounter(n) && (UserCounter(m) == UserCounter(n) ==> m == n));
      SharedCounterMiscounts(names, m, n);
    }
  }

  /** One client under the first name takes a slot; one under the second, which has done
      nothing, finds it on its counter. */
  lemma SharedCounterMiscounts(names: set<Name>, m: Name, n: Name)
    requires m in names && n in names
    requires UserCounter(m) == TenantCounter(n) || (UserCounter(m) == UserCounter(n) && m != n)
    ensures !AlwaysCountsSlots(names)
  {
    var l := Limits(map[], 1, 1);
    var start := State(map[], map[0 := Client(m.0, m.1, Idle), 1 := Client(n.0, n.1, Idle)]);
    var s := Run(start, [0, 0], l);
    CountersCoincideIff(m, m);
    CountersCoincideIff(n, m);
    TwoSteps(start, 0, l);
    var s1 := Step(start, 0, l);
    assert s1.counters == map[TenantCounter(m) := 1] && s1.clients[0].pc == TenantCounted(1);
    assert TenantCounter(m) != UserCounter(m) by { assert |m.0 + ":" + m.1| > |m.0|; }
    assert s == Step(s1, 0, l);
    assert s.counters == map[TenantCounter(m) := 1, UserCounter(m) := 1] && s.clients[0].pc == Holding(1, 1);
    assert s.clients[1] == start.clients[1];
    if UserCounter(m) == TenantCounter(n) {
      assert n.0 != m.0;
      assert TenantHolders(s, n.0) == {};
    } else {
      assert UserHolders(s, n.0, n.1) == {};
    }
    assert !CountsSlots(s, start.clients[1]);
  }

  /** An acquire that runs undisturbed, whatever state the others are in, is admitted exactly
      when the increments outstanding on its tenant's and its user's counter are below their
      limits; two commands later, refused or released, every counter is back where it was. */
  lemma LoneAcquireIsExact(start: State, schedule: seq<int>, l: Limits, c: int)
    requires Initial(start)
    requires var s := Run(start, schedule, l); c in s.clients && s.clients[c].pc.Idle?
    ensures var s := Run(start, schedule, l);
            var client := s.clients[c];
            var decided := Step(Step(s, c, l), c, l);
            var done := Step(Step(decided, c, l), c, l);
            && (decided.clients[c].pc.Holding? <==>
                  && |OutstandingOn(s, TenantKey(client.tenant))| < TenantLimit(l, client.tenant)
                  && |OutstandingOn(s, UserKey(client.tenant, client.principal))| < l.user)
            && (if decided.clients[c].pc.Holding? then done.clients[c].pc.Released? else done.clients[c].pc.Refused?)
            && forall key :: Counter(done.counters, key) == Counter(s.counters, key)
  {
    var s := Run(start, schedule, l);
    var client := s.clients[c];
    CountersAreExact(start, schedule, l, TenantKey(client.tenant));
    CountersAreExact(start, schedule, l, UserKey(client.tenant, client.principal));
    AcquireAlone(s, c, l);
  }

  lemma AcquireAlone(s: State, c: int, l: Limits)
    requires c in s.clients && s.clients[c].pc.Idle?
    ensures var client := s.clients[c];
            var decided := Step(Step(s, c, l), c, l);
            var done := Step(Step(decided, c, l), c, l);
            && (decided.clients[c].pc.Holding? <==>
                  && Counter(s.counters, TenantKey(client.tenant)) < TenantLimit(l, client.tenant)
                  && Counter(s.counters, UserKey(client.tenant, client.principal)) < l.user)
            && (if decided.clients[c].pc.Holding? then done.clients[c].pc.Released? else done.clients[c].pc.Refused?)
            && forall key :: Counter(done.counters, key) == Counter(s.counters, key)
  {
    var client := s.clients[c];
    var tenantKey, userKey := KeyOf(client, TenantSlot), KeyOf(client, UserSlot);
    CountersCoincideIff(NameOf(client), NameOf(client));
    assert |client.tenant + ":" + client.principal| > |client.tenant|;
    var s1 := Step(s, c, l);
    assert s1.counters == Incr(s, tenantKey);
    var s2 := Step(s1, c, l);
    assert s2.counters == Incr(s1, userKey);
    var s3 := Step(s2, c, l);
    assert s3.counters == Decr(s2, tenantKey);
    var s4 := Step(s3, c, l);
    assert s4.counters == Decr(s3, userKey);
  }

  lemma TwoSteps(s: State, c: int, l: Limits)
    ensures Run(s, [c, c], l) == Step(Step(s, c, l), c, l)
  {
    assert [c, c][1..] == [c];
    RunOne(Step(s, c, l), c, l);
  }
}

/** A run in which the protocol refuses although a slot is free. */
module StreamSlotsInTransit {
  import opened AdmissionLimits
  import opened StreamSlots

  /** Counting increments in transit refuses more than the slots taken would: with a
      tenant limit of two and a user limit of one, client 2 is refused while the tenant
      has a single holder, because client 1, on its way to being refused, is counted. */
  lemma TransitRefusesEarly()
    ensures var l := Limits(map[], 2, 1);
            var clients := map[0 := Client("t", "p", Idle), 1 := Client("t", "p", Idle), 2 := Client("t", "q", Idle)];
            var start := State(map[], clients);
            var s := Run(start, [0, 0, 1, 2, 2], l);
            && Initial(start)
            && s.clients[2].pc.Refusing?
            && TenantHolders(s, "t") == {0} && UserHolders(s, "t", "q") == {}
  {
  }
}
