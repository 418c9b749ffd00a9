/** Tables of UDP and ICMP targets over one budget: the route tables of integration/xray/udp_routes.go,
    which evict their oldest route, and the relays of pkg/server/http3.go, which refuse when full.

    Any number of tables run in any interleaving of their locked sections; a route leaves its table
    under the lock and is closed, and its lease returned, at some later step.  `home` records where each
    lease is, so that the invariant can say that every live lease is in exactly one place. */
module UdpRoutes {
  import opened UdpBudget

  const MAX_ROUTES := 1024
  const MAX_RELAY_TARGETS := 64
  const IDLE := 60_000_000_000
  const MAX_TIME := 0x7FFF_FFFF_FFFF_FFFF

  type Key = nat

  datatype Route = Route(lease: Lease, last: int)
  datatype Pending = Reserving | Holding(lease: Lease)

  /** `evicts` tells the route tables from the relays. */
  datatype Table = Table(
    evicts: bool,
    closed: bool,
    entries: map<Key, Route>,
    icmp: map<Key, Route>,
    opening: map<Key, Pending>)

  datatype Kind = Udp | Icmp | Opening
  /** Plain UDP sessions draw leases from the same budget and hold them outside the tables. */
  datatype Place = In(table: nat, key: Key, kind: Kind) | Outside | Gone

  function Limit(tb: Table): nat { if tb.evicts then MAX_ROUTES else MAX_RELAY_TARGETS }
  function Size(tb: Table): nat { |tb.entries| + |tb.icmp| + |tb.opening| }

  predicate Absent(tb: Table, key: Key) { key !in tb.entries && key !in tb.icmp && key !in tb.opening }

  predicate Holds(tb: Table, key: Key, kind: Kind, l: Lease) {
    match kind
    case Udp => key in tb.entries && tb.entries[key].lease == l
    case Icmp => key in tb.icmp && tb.icmp[key].lease == l
    case Opening => key in tb.opening && tb.opening[key] == Holding(l)
  }

  // ---------------------------------------------------------------- what the locked sections do

  datatype Victim = NoVictim | Oldest(kind: Kind, key: Key)

  /** The route used least recently; a UDP route comes before an ICMP route of the same age. */
  ghost predicate IsOldest(tb: Table, kind: Kind, key: Key) {
    match kind
    case Udp =>
      && key in tb.entries
      && (forall k | k in tb.entries :: tb.entries[key].last <= tb.entries[k].last)
      && (forall k | k in tb.icmp :: tb.entries[key].last <= tb.icmp[k].last)
    case Icmp =>
      && key in tb.icmp
      && (forall k | k in tb.icmp :: tb.icmp[key].last <= tb.icmp[k].last)
      && (forall k | k in tb.entries :: tb.icmp[key].last < tb.entries[k].last)
    case Opening => false
  }

  ghost predicate Evicts(tb: Table, v: Victim) {
    if Size(tb) < Limit(tb) || (tb.entries == map[] && tb.icmp == map[]) then v == NoVictim
    else v.Oldest? && IsOldest(tb, v.kind, v.key)
  }

  /** What becomes of leases: `gone` leave the table, `put` arrives at a place of it. */
  datatype Put = Nothing | Put(lease: Lease, key: Key, kind: Kind)
  datatype Effect = Effect(table: Table, gone: set<Lease>, put: Put)

  function Without(tb: Table, kind: Kind, key: Key): Table {
    match kind
    case Udp => tb.(entries := tb.entries - {key})
    case Icmp => tb.(icmp := tb.icmp - {key})
    case Opening => tb.(opening := tb.opening - {key})
  }

  function LeaseAt(tb: Table, kind: Kind, key: Key): set<Lease> {
    match kind
    case Udp => if key in tb.entries then {tb.entries[key].lease} else {}
    case Icmp => if key in tb.icmp then {tb.icmp[key].lease} else {}
    case Opening => if key in tb.opening && tb.opening[key].Holding? then {tb.opening[key].lease} else {}
  }

  function BeginRoute(tb: Table, key: Key, v: Victim): Effect {
    var rest := if v.Oldest? then Without(tb, v.kind, v.key) else tb;
    var gone := if v.Oldest? then LeaseAt(tb, v.kind, v.key) else {};
    Effect(rest.(opening := rest.opening[key := Reserving]), gone, Nothing)
  }

  function Hold(tb: Table, key: Key, l: Lease): Effect {
    Effect(tb.(opening := tb.opening[key := Holding(l)]), {}, Put(l, key, Opening))
  }

  datatype Made = Failed | Made(kind: Kind, last: int)

  function Finish(tb: Table, key: Key, made: Made): Effect
    requires key in tb.opening
  {
    var rest := Without(tb, Opening, key);
    if tb.closed || made.Failed? || tb.opening[key].Reserving? then Effect(rest, LeaseAt(tb, Opening, key), Nothing)
    else
      var l := tb.opening[key].lease;
      if made.kind == Icmp then Effect(rest.(icmp := rest.icmp[key := Route(l, made.last)]), {}, Put(l, key, Icmp))
      else Effect(rest.(entries := rest.entries[key := Route(l, made.last)]), {}, Put(l, key, Udp))
  }

  predicate Stale(r: Route, now: int) { now - r.last >= IDLE }

  function Live(m: map<Key, Route>, now: int): map<Key, Route> { map k | k in m && !Stale(m[k], now) :: m[k] }
  function Leases(m: map<Key, Route>): set<Lease> { set k | k in m :: m[k].lease }
  function StaleLeases(m: map<Key, Route>, now: int): set<Lease> { set k | k in m && Stale(m[k], now) :: m[k].lease }

  function Expire(tb: Table, now: int): Effect {
    Effect(tb.(entries := Live(tb.entries, now), icmp := Live(tb.icmp, now)),
           StaleLeases(tb.entries, now) + StaleLeases(tb.icmp, now), Nothing)
  }

  /** `remove` of a route that may have left the table already. */
  function Remove(tb: Table, key: Key, kind: Kind, l: Lease): Effect {
    Effect(if Holds(tb, key, kind, l) then Without(tb, kind, key) else tb, {l}, Nothing)
  }

  function Close(tb: Table): Effect {
    Effect(tb.(closed := true, entries := map[], icmp := map[]), Leases(tb.entries) + Leases(tb.icmp), Nothing)
  }

  function Touch(m: map<Key, Route>, key: Key, now: int): map<Key, Route> {
    if key in m then m[key := m[key].(last := now)] else m
  }

  function TouchTable(tb: Table, key: Key, now: int): Effect {
    Effect(tb.(entries := Touch(tb.entries, key, now), icmp := Touch(tb.icmp, key, now)), {}, Nothing)
  }

  // ---------------------------------------------------------------- all tables and the budget

  /** `home` tells where each lease ever issued is, `closing` which ones are still to be returned. */
  datatype World = World(
    tables: seq<Table>,
    budget: Budget,
    live: map<Lease, Identity>,
    home: map<Lease, Place>,
    closing: set<Lease>)

  datatype Event =
    | Begin(key: Key, victim: Victim)
    | Reserve(key: Key, id: Identity, lease: Lease)
    | BeginTarget(key: Key, id: Identity, lease: Lease)
    | End(key: Key, made: Made)
    | Use(key: Key, now: int)
    | Sweep(now: int)
    | Drop(key: Key, kind: Kind, lease: Lease)
    | Shut

  datatype Step =
    | At(table: nat, event: Event)
    | Borrow(id: Identity, lease: Lease)
    | HandBack(lease: Lease)
    | Return(lease: Lease)

  ghost predicate Enabled(w: World, tb: Table, t: nat, e: Event) {
    match e
    case Begin(key, victim) =>
      tb.evicts && !tb.closed && Absent(tb, key) && |tb.opening| < MAX_ROUTES && Evicts(tb, victim)
    case Reserve(key, id, l) =>
      key in tb.opening && tb.opening[key].Reserving? && CanReserve(w.budget, id) && l !in w.home
    case BeginTarget(key, id, l) => !tb.evicts && !tb.closed && Absent(tb, key) && Size(tb) < MAX_RELAY_TARGETS
                                    && CanReserve(w.budget, id) && l !in w.home
    case End(key, made) => key in tb.opening && (made.Made? ==> made.kind != Opening)
    case Use(_, _) => true
    case Sweep(_) => tb.evicts
    case Drop(key, kind, l) => kind != Opening && l in w.home && w.home[l] in {Gone, In(t, key, kind)}
    case Shut => true
  }

  function EffectOf(tb: Table, e: Event): Effect
    requires e.End? ==> e.key in tb.opening
  {
    match e
    case Begin(key, victim) => BeginRoute(tb, key, victim)
    case Reserve(key, _, l) => Hold(tb, key, l)
    case BeginTarget(key, _, l) => Hold(tb, key, l)
    case End(key, made) => Finish(tb, key, made)
    case Use(key, now) => TouchTable(tb, key, now)
    case Sweep(now) => Expire(tb, now)
    case Drop(key, kind, l) => Remove(tb, key, kind, l)
    case Shut => Close(tb)
  }

  function Rehome(home: map<Lease, Place>, t: nat, x: Effect): map<Lease, Place> {
    var left := map l | l in home :: if l in x.gone then Gone else home[l];
    if x.put.Put? then left[x.put.lease := In(t, x.put.key, x.put.kind)] else left
  }

  function Apply(w: World, t: nat, e: Event): World
    requires t < |w.tables| && (e.End? ==> e.key in w.tables[t].opening)
  {
    var x := EffectOf(w.tables[t], e);
    var moved := w.(tables := w.tables[t := x.table], home := Rehome(w.home, t, x), closing := w.closing + x.gone);
    if e.Reserve? || e.BeginTarget? then moved.(budget := Reserved(w.budget, e.id), live := w.live[e.lease := e.id])
    else moved
  }

  function Borrowed(w: World, id: Identity, l: Lease): World {
    w.(budget := Reserved(w.budget, id), live := w.live[l := id], home := w.home[l := Outside])
  }

  /** Closing a route returns its lease, unless that has been done. */
  function GiveBack(w: World, l: Lease): World {
    var rest := w.(closing := w.closing - {l});
    if l in w.live then rest.(budget := Released(w.budget, w.live[l]), live := w.live - {l}) else rest
  }

  ghost predicate CanStep(w: World, s: Step) {
    match s
    case At(t, e) => t < |w.tables| && Enabled(w, w.tables[t], t, e)
    case Borrow(id, l) => CanReserve(w.budget, id) && l !in w.home
    case HandBack(l) => l in w.home && w.home[l] == Outside
    case Return(l) => l in w.closing
  }

  ghost function Next(w: World, s: Step): World
    requires CanStep(w, s)
  {
    match s
    case At(t, e) => Apply(w, t, e)
    case Borrow(id, l) => Borrowed(w, id, l)
    case HandBack(l) => w.(home := w.home[l := Gone], closing := w.closing + {l})
    case Return(l) => GiveBack(w, l)
  }

  ghost predicate Reaches(w: World, steps: seq<Step>, end: World)
    decreases |steps|
  {
    if steps == [] then w == end
    else CanStep(w, steps[0]) && Reaches(Next(w, steps[0]), steps[1..], end)
  }
}
