/**
 * Any number of refreshes between their read and rotate phases and of device bindings between reading a session and
 * writing it back, interleaved with logins, revocations and retention passes.
 */
module RefreshRuns {
  import opened Collections
  import opened RefreshFamilies

  /** A refresh between its phases: the hash presented, the access hash it saw, and the session it wants to install. */
  datatype Running = Running(refreshHash: string, expected: string, next: Session)

  /**
   * Besides the tables: the refreshes between their phases, the copies that device bindings have yet to write back, the
   * hashes of all tokens drawn, every session ever installed (without its device), every refresh token ever exchanged
   * (in order, and with its family even after the tables forgot it), each family's refresh expiry, and the latest
   * retention cutoff.
   */
  datatype Machine = Machine(
    now: int, tables: Tables, running: map<nat, Running>, binding: map<nat, Session>, drawn: set<string>,
    issued: map<string, Session>, exchanged: seq<string>, spent: map<string, Consumed>, expiry: map<string, int>,
    horizon: int)

  datatype Action =
    | Tick(to: int)
    | Login(access: string, refresh: string, product: Product, audience: Audience, user: string)
    | BeginRefresh(r: nat, refreshHash: string, access: string, refresh: string, admitted: bool)
    | FinishRefresh(r: nat)
    | Abandon(r: nat)
    | Logout(refreshHash: string)
    | RevokeAccess(access: string)
    | RevokeUser(user: string)
    | RevokeDevice(deviceId: string, product: Product)
    | ReadBinding(b: nat, access: string, deviceId: string)
    | WriteBinding(b: nat)
    | ClearDevice(access: string, deviceId: string)
    | Cleanup(cutoff: int, batch: nat, gone: set<string>)

  predicate Fresh(m: Machine, access: string, refresh: string) {
    access != refresh && access !in m.drawn && refresh !in m.drawn
  }

  ghost predicate Enabled(m: Machine, action: Action) {
    match action
    case Tick(to) => m.now <= to
    case Login(access, refresh, _, _, _) => Fresh(m, access, refresh)
    case BeginRefresh(r, _, access, refresh, _) => r !in m.running && Fresh(m, access, refresh)
    case FinishRefresh(r) => r in m.running
    case Abandon(r) => r in m.running
    case ReadBinding(b, _, _) => b !in m.binding
    case WriteBinding(b) => b in m.binding
    case Cleanup(cutoff, batch, gone) => cutoff <= m.now && batch >= 1 && OldestExpired(m.tables, cutoff, batch, gone)
    case _ => true
  }

  function NewSession(
    m: Machine, access: string, refresh: string, product: Product, audience: Audience, user: string): Session {
    Session(access, refresh, m.now + ACCESS_SECONDS, m.now + REFRESH_SECONDS, product, audience, refresh, 0, user, "")
  }

  function Installed(m: Machine, s: Session): map<string, Session> {
    m.issued[s.accessHash := s.(deviceId := "")]
  }

  /** `admitted` is what the user table answers about the session's user after the read. */
  function Begun(m: Machine, r: nat, refreshHash: string, access: string, refresh: string, admitted: bool): Machine {
    var (tables, found) := Read(m.tables, refreshHash);
    var n := m.(tables := tables, drawn := m.drawn + {access, refresh});
    if found.None? || found.value.refreshExpiresAt < m.now || !admitted then n
    else n.(running := m.running[r := Running(refreshHash, m.tables.index[refreshHash],
        Successor(found.value, m.now, access, refresh))])
  }

  function Finished(m: Machine, r: nat): Machine
    requires r in m.running
  {
    var x := m.running[r];
    var n := m.(tables := Rotated(m.tables, x.refreshHash, x.expected, x.next), running := m.running - {r});
    if CanRotate(m.tables, x.refreshHash, x.expected) then
      var s := m.tables.sessions[x.expected];
      n.(exchanged := m.exchanged + [x.refreshHash], issued := Installed(m, x.next),
          spent := m.spent[s.refreshHash := Consumed(s.family, s.refreshExpiresAt)])
    else n
  }

  function BindingRead(m: Machine, b: nat, access: string, deviceId: string): Machine {
    var result := BindRead(m.tables, access, deviceId);
    if result.ToWrite? then m.(binding := m.binding[b := result.copy]) else m
  }

  function BindingWritten(m: Machine, b: nat): Machine
    requires b in m.binding
  {
    m.(tables := WrittenBack(m.tables, m.binding[b]), binding := m.binding - {b})
  }

  ghost function Apply(m: Machine, action: Action): Machine
    requires Enabled(m, action)
  {
    match action
    case Tick(to) => m.(now := to)
    case Login(access, refresh, product, audience, user) =>
      var s := NewSession(m, access, refresh, product, audience, user);
      m.(tables := Inserted(m.tables, s), drawn := m.drawn + {access, refresh}, issued := Installed(m, s),
         expiry := m.expiry[refresh := m.now + REFRESH_SECONDS])
    case BeginRefresh(r, refreshHash, access, refresh, admitted) => Begun(m, r, refreshHash, access, refresh, admitted)
    case FinishRefresh(r) => Finished(m, r)
    case Abandon(r) => m.(running := m.running - {r})
    case Logout(refreshHash) => m.(tables := LoggedOut(m.tables, refreshHash))
    case RevokeAccess(access) => m.(tables := Without(m.tables, {access} * m.tables.sessions.Keys))
    case RevokeUser(user) => m.(tables := UserRevoked(m.tables, user))
    case RevokeDevice(deviceId, product) => m.(tables := DeviceRevoked(m.tables, deviceId, product))
    case ReadBinding(b, access, deviceId) => BindingRead(m, b, access, deviceId)
    case WriteBinding(b) => BindingWritten(m, b)
    case ClearDevice(access, deviceId) => m.(tables := Cleared(m.tables, access, deviceId))
    case Cleanup(cutoff, batch, gone) =>
      m.(tables := Cleaned(m.tables, cutoff, gone), horizon := if m.horizon < cutoff then cutoff else m.horizon)
  }

  function Initial(now: int): Machine {
    Machine(now, Tables(map[], map[], map[]), map[], map[], {}, map[], [], map[], map[], now)
  }

  ghost predicate Possible(m: Machine, actions: seq<Action>)
    decreases |actions|
  {
    actions == [] || (Enabled(m, actions[0]) && Possible(Apply(m, actions[0]), actions[1..]))
  }

  ghost function Run(m: Machine, actions: seq<Action>): Machine
    requires Possible(m, actions)
    decreases |actions|
  {
    if actions == [] then m else Run(Apply(m, actions[0]), actions[1..])
  }

  // --- the invariant ---------------------------------------------------------------------------------------

  ghost predicate IssuedSound(m: Machine) {
    forall a :: a in m.issued ==>
      && var s := m.issued[a];
        && s.accessHash == a && a in m.drawn && s.refreshHash in m.drawn
        && s.family in m.expiry && s.refreshExpiresAt == m.expiry[s.family] && s.expiresAt <= s.refreshExpiresAt
  }

  /** Whatever is stored or about to be written back is a session once installed, but for its device. */
  ghost predicate Traced(m: Machine) {
    && (forall a :: a in m.tables.sessions ==> a in m.issued && SameSession(m.tables.sessions[a], m.issued[a]))
    && (forall b :: b in m.binding ==>
          m.binding[b].accessHash in m.issued && SameSession(m.binding[b], m.issued[m.binding[b].accessHash]))
  }

  /** Spent tokens: never current again, exchanged once each, forgotten only when past the horizon. */
  ghost predicate SpentSound(m: Machine) {
    && (forall h :: h in m.spent ==>
          && h in m.drawn && h !in m.tables.index
          && m.spent[h].family in m.expiry && m.spent[h].refreshExpiresAt == m.expiry[m.spent[h].family]
          && (h in m.tables.consumed || m.spent[h].refreshExpiresAt < m.horizon))
    && (forall h :: h in m.tables.consumed ==> h in m.spent && m.tables.consumed[h] == m.spent[h])
    && (forall i :: 0 <= i < |m.exchanged| ==> m.exchanged[i] in m.spent)
    && (forall i, j :: 0 <= i < j < |m.exchanged| ==> m.exchanged[i] != m.exchanged[j])
    && m.horizon <= m.now
  }

  ghost predicate RunningSound(m: Machine, x: Running) {
    && x.next.accessHash in m.drawn && x.next.refreshHash in m.drawn
    && x.next.accessHash !in m.issued && x.next.refreshHash !in m.tables.index && x.next.refreshHash !in m.spent
    && x.next.family in m.expiry && x.next.refreshExpiresAt == m.expiry[x.next.family]
        && x.next.expiresAt <= x.next.refreshExpiresAt
    && x.expected in m.issued && m.issued[x.expected].family == x.next.family
        && m.issued[x.expected].refreshHash == x.refreshHash
  }

  /** No two running refreshes want to install the same token. */
  ghost predicate Apart(running: map<nat, Running>) {
    forall q, r :: q in running && r in running && q != r ==>
      && running[q].next.accessHash != running[r].next.accessHash
      && running[q].next.refreshHash != running[r].next.refreshHash
  }

  ghost predicate AllRunningSound(m: Machine) {
    (forall r :: r in m.running ==> RunningSound(m, m.running[r])) && Apart(m.running)
  }

  ghost predicate Sound(m: Machine) {
    && Indexed(m.tables) && IssuedSound(m) && Traced(m) && SpentSound(m) && AllRunningSound(m)
    && (forall f :: f in m.expiry ==> f in m.drawn)
  }

  lemma InitialIsSound(now: int)
    ensures Sound(Initial(now))
  {
  }

  // --- steps -----------------------------------------------------------------------------------------------

  /** What a running refresh relies on survives as long as nobody takes the hashes it wants to install. */
  lemma StillSound(m: Machine, n: Machine, x: Running)
    requires RunningSound(m, x) && m.drawn <= n.drawn
    requires x.expected in n.issued && n.issued[x.expected] == m.issued[x.expected]
    requires x.next.family in n.expiry && n.expiry[x.next.family] == m.expiry[x.next.family]
    requires x.next.accessHash !in n.issued && x.next.refreshHash !in n.tables.index && x.next.refreshHash !in n.spent
    ensures RunningSound(n, x)
  {
  }

  /** Steps that install and spend nothing keep all of them sound. */
  lemma NothingInstalled(m: Machine, n: Machine)
    requires AllRunningSound(m) && n.running.Keys <= m.running.Keys
    requires forall r :: r in n.running ==> n.running[r] == m.running[r]
    requires m.drawn <= n.drawn && n.issued == m.issued && n.expiry == m.expiry && n.spent == m.spent
    requires n.tables.index.Keys <= m.tables.index.Keys
    ensures AllRunningSound(n)
  {
    forall r | r in n.running ensures RunningSound(n, n.running[r]) {
      StillSound(m, n, m.running[r]);
    }
  }

  /**
   * What such a step may change: the clock, who is running, the copies, the sessions, and it may drop index entries.
   */
  ghost predicate Quiet(m: Machine, n: Machine) {
    && m.drawn <= n.drawn && n.issued == m.issued && n.expiry == m.expiry && n.spent == m.spent
    && n.exchanged == m.exchanged && n.horizon == m.horizon && m.now <= n.now
    && n.tables.consumed == m.tables.consumed && n.tables.index.Keys <= m.tables.index.Keys
  }

  lemma QuietKeeps(m: Machine, n: Machine)
    requires Sound(m) && Quiet(m, n) && Indexed(n.tables) && Traced(n) && AllRunningSound(n)
    ensures Sound(n)
  {
    hide Indexed, Traced, AllRunningSound;
  }

  /** Dropping any sessions. */
  lemma DropKeeps(m: Machine, gone: set<string>)
    requires Sound(m)
    ensures Sound(m.(tables := Without(m.tables, gone)))
  {
    DroppingKeeps(m.tables, gone);
    var n := m.(tables := Without(m.tables, gone));
    NothingInstalled(m, n);
    assert Traced(n);
    hide Indexed, Traced, AllRunningSound, Sound;
    QuietKeeps(m, n);
  }

  lemma LoginKeepsRunning(m: Machine, n: Machine, s: Session)
    requires Sound(m) && s.accessHash !in m.drawn && s.refreshHash !in m.drawn && s.family == s.refreshHash
    requires n.tables == Inserted(m.tables, s) && n.drawn == m.drawn + {s.accessHash, s.refreshHash}
    requires n.expiry == m.expiry[s.family := s.refreshExpiresAt] && n.running == m.running && n.spent == m.spent
    requires n.issued == Installed(m, s)
    ensures AllRunningSound(n)
  {
    hide Indexed, Traced, SpentSound;
    forall r | r in n.running ensures RunningSound(n, n.running[r]) {
      assert RunningSound(m, m.running[r]);
      assert m.running[r].expected in m.drawn && m.running[r].next.family in m.drawn;
      StillSound(m, n, m.running[r]);
    }
  }

  lemma LoginKeepsSpent(m: Machine, n: Machine, s: Session)
    requires Sound(m) && s.refreshHash !in m.drawn && s.family == s.refreshHash
    requires n.tables == Inserted(m.tables, s) && n.drawn == m.drawn + {s.accessHash, s.refreshHash}
    requires n.expiry == m.expiry[s.family := s.refreshExpiresAt] && n.spent == m.spent && n.exchanged == m.exchanged
    requires n.horizon == m.horizon && n.now == m.now
    ensures SpentSound(n)
  {
    hide Indexed, IssuedSound, Traced, AllRunningSound;
  }

  /** Nothing stored, indexed, spent or waiting to be written back bears a hash that has not been drawn. */
  lemma NotThereYet(m: Machine, access: string, refresh: string)
    requires Sound(m) && access !in m.drawn && refresh !in m.drawn
    ensures access !in m.issued && access !in m.tables.sessions && refresh !in m.tables.index
            && refresh !in m.tables.consumed && refresh !in m.spent
    ensures forall a :: a in m.tables.sessions ==> m.tables.sessions[a].family != refresh
  {
    hide AllRunningSound;
    forall a | a in m.tables.sessions ensures m.tables.sessions[a].family in m.drawn {
      assert SameSession(m.tables.sessions[a], m.issued[a]);
    }
    forall h | h in m.tables.index ensures h in m.drawn {
      var a := m.tables.index[h];
      assert SameSession(m.tables.sessions[a], m.issued[a]);
    }
  }

  /** Installing a session under a new access hash. */
  lemma InstallingKeeps(m: Machine, n: Machine, s: Session)
    requires IssuedSound(m) && Traced(m) && s.accessHash !in m.issued
    requires n.issued == Installed(m, s) && n.binding == m.binding && m.drawn <= n.drawn
    requires s.accessHash in n.drawn && s.refreshHash in n.drawn
    requires s.family in n.expiry && s.refreshExpiresAt == n.expiry[s.family] && s.expiresAt <= s.refreshExpiresAt
    requires forall f :: f in m.expiry ==> f in n.expiry && n.expiry[f] == m.expiry[f]
    requires s.accessHash in n.tables.sessions && n.tables.sessions[s.accessHash] == s
    requires forall a :: a in n.tables.sessions && a != s.accessHash ==>
               a in m.tables.sessions && n.tables.sessions[a] == m.tables.sessions[a]
    ensures IssuedSound(n) && Traced(n)
  {
  }

  lemma LoginKeeps(m: Machine, access: string, refresh: string, product: Product, audience: Audience, user: string)
    requires Sound(m) && Fresh(m, access, refresh)
    ensures Sound(Apply(m, Login(access, refresh, product, audience, user)))
  {
    var s, n := NewSession(m, access, refresh, product, audience, user),
        Apply(m, Login(access, refresh, product, audience, user));
    NotThereYet(m, s.accessHash, s.refreshHash);
    InsertingKeeps(m.tables, s);
    LoginKeepsRunning(m, n, s);
    LoginKeepsSpent(m, n, s);
    assert forall f :: f in m.expiry ==> f in m.drawn;
    InstallingKeeps(m, n, s);
    hide Indexed, AllRunningSound, SpentSound, IssuedSound, Traced;
  }

  /** The tables after a replay check, whoever presents the token. */
  lemma ReplayKeeps(m: Machine, refreshHash: string)
    requires Sound(m)
    ensures Sound(m.(tables := Replayed(m.tables, refreshHash)))
  {
    if refreshHash in m.tables.consumed {
      DropKeeps(m, InFamily(m.tables, m.tables.consumed[refreshHash].family));
    }
  }

  /** Drawing two new hashes for nobody yet. */
  lemma DrawKeeps(m: Machine, access: string, refresh: string)
    requires Sound(m)
    ensures Sound(m.(drawn := m.drawn + {access, refresh}))
  {
    var n := m.(drawn := m.drawn + {access, refresh});
    NothingInstalled(m, n);
    assert Traced(n);
    hide Indexed, Traced, AllRunningSound, Sound;
    QuietKeeps(m, n);
  }

  /** A refresh enters its in-between state. */
  lemma EnterKeeps(m: Machine, r: nat, refreshHash: string, access: string, refresh: string)
    requires Sound(m) && r !in m.running && Fresh(m, access, refresh) && refreshHash in m.tables.index
    ensures var expected := m.tables.index[refreshHash];
            expected in m.tables.sessions
            && Sound(m.(drawn := m.drawn + {access, refresh},
                        running := m.running[r := Running(refreshHash, expected,
                            Successor(m.tables.sessions[expected], m.now, access, refresh))]))
  {
    IndexInverse(m.tables, refreshHash);
    var expected := m.tables.index[refreshHash];
    var x := Running(refreshHash, expected, Successor(m.tables.sessions[expected], m.now, access, refresh));
    DrawKeeps(m, access, refresh);
    var d := m.(drawn := m.drawn + {access, refresh});
    EnteredIsSound(m, d, x);
    hide RunningSound, AllRunningSound, Indexed, Traced;
    EnterKeepsRunning(m, d, r, x);
    EnteredTraced(d, d.(running := m.running[r := x]));
    hide Sound;
    QuietKeeps(d, d.(running := m.running[r := x]));
  }

  lemma EnteredTraced(d: Machine, n: Machine)
    requires Traced(d) && n == d.(running := n.running)
    ensures Traced(n)
  {
  }

  lemma EnteredIsSound(m: Machine, d: Machine, x: Running)
    requires Sound(m) && d == m.(drawn := d.drawn) && m.drawn <= d.drawn
    requires x.next.accessHash !in m.drawn && x.next.refreshHash !in m.drawn
    requires x.next.accessHash in d.drawn && x.next.refreshHash in d.drawn
    requires x.expected in m.tables.sessions && m.tables.sessions[x.expected].refreshHash == x.refreshHash
    requires x.next.family == m.tables.sessions[x.expected].family
              && x.next.refreshExpiresAt == m.tables.sessions[x.expected].refreshExpiresAt
    requires x.next.expiresAt <= x.next.refreshExpiresAt
    ensures RunningSound(d, x)
  {
    NotThereYet(m, x.next.accessHash, x.next.refreshHash);
    assert SameSession(m.tables.sessions[x.expected], m.issued[x.expected]);
    hide Indexed, SpentSound, AllRunningSound;
  }

  lemma EnterKeepsRunning(m: Machine, d: Machine, r: nat, x: Running)
    requires AllRunningSound(m) && AllRunningSound(d) && RunningSound(d, x)
    requires d == m.(drawn := d.drawn) && r !in m.running
    requires x.next.accessHash !in m.drawn && x.next.refreshHash !in m.drawn
    ensures AllRunningSound(d.(running := m.running[r := x]))
  {
    var n := d.(running := m.running[r := x]);
    forall q | q in n.running ensures RunningSound(n, n.running[q]) {
      StillSound(d, n, n.running[q]);
    }
    forall q | q in m.running
      ensures m.running[q].next.accessHash in m.drawn && m.running[q].next.refreshHash in m.drawn
    {
      assert RunningSound(m, m.running[q]);
    }
  }

  lemma BeginKeeps(m: Machine, r: nat, refreshHash: string, access: string, refresh: string, admitted: bool)
    requires Sound(m) && r !in m.running && Fresh(m, access, refresh)
    ensures Sound(Begun(m, r, refreshHash, access, refresh, admitted))
  {
    if refreshHash in m.tables.index {
      EnterKeeps(m, r, refreshHash, access, refresh);
      DrawKeeps(m, access, refresh);
    } else {
      ReplayKeeps(m, refreshHash);
      DrawKeeps(m.(tables := Replayed(m.tables, refreshHash)), access, refresh);
    }
    hide Sound, Replayed;
  }

  lemma LeaveKeeps(m: Machine, r: nat)
    requires Sound(m)
    ensures Sound(m.(running := m.running - {r}))
  {
    var n := m.(running := m.running - {r});
    NothingInstalled(m, n);
    assert Traced(n);
    hide Indexed, Traced, AllRunningSound, Sound;
    QuietKeeps(m, n);
  }

  lemma IndexInverse(t: Tables, refreshHash: string)
    requires Indexed(t) && refreshHash in t.index
    ensures t.index[refreshHash] in t.sessions && t.sessions[t.index[refreshHash]].refreshHash == refreshHash
  {
  }

  /** A running refresh's new refresh token is not one that can be exchanged yet. */
  lemma NotSpentByRotation(m: Machine, q: nat, refreshHash: string)
    requires AllRunningSound(m) && q in m.running && refreshHash in m.tables.index
    ensures m.running[q].next.refreshHash != refreshHash
  {
    assert RunningSound(m, m.running[q]);
  }

  predicate Rotates(m: Machine, r: nat) {
    r in m.running && CanRotate(m.tables, m.running[r].refreshHash, m.running[r].expected)
  }

  /** What a rotation that succeeds has found and is about to install. */
  lemma RotationFacts(m: Machine, r: nat)
    requires Sound(m) && Rotates(m, r)
    ensures var x := m.running[r];
            && x.expected in m.tables.sessions && m.tables.sessions[x.expected].refreshHash == x.refreshHash
            && SameSession(m.tables.sessions[x.expected], m.issued[x.expected])
            && m.tables.sessions[x.expected].family == x.next.family
            && x.next.accessHash !in m.tables.sessions && x.next.accessHash !in m.issued
            && x.next.refreshHash !in m.tables.index && x.next.refreshHash !in m.tables.consumed
            && x.next.refreshHash != x.refreshHash && x.next.refreshHash !in m.spent && x.next.refreshHash in m.drawn
            && x.refreshHash in m.drawn && x.refreshHash !in m.spent
  {
    IndexInverse(m.tables, m.running[r].refreshHash);
    assert RunningSound(m, m.running[r]);
    hide AllRunningSound;
  }

  lemma ExchangeKeepsIndexed(m: Machine, r: nat)
    requires Sound(m) && Rotates(m, r)
    ensures Indexed(Finished(m, r).tables)
    ensures EveryIndexed(m.tables) ==> EveryIndexed(Finished(m, r).tables)
    ensures OnePerFamily(m.tables) ==> OnePerFamily(Finished(m, r).tables)
  {
    RotationFacts(m, r);
    RotatingKeeps(m.tables, m.running[r].refreshHash, m.running[r].next);
    hide Sound, Indexed, EveryIndexed, OnePerFamily;
  }

  lemma ExchangeKeepsIssued(m: Machine, r: nat)
    requires Sound(m) && Rotates(m, r)
    ensures IssuedSound(Finished(m, r)) && Traced(Finished(m, r))
  {
    RotationFacts(m, r);
    assert RunningSound(m, m.running[r]);
    hide Indexed, SpentSound, AllRunningSound, IssuedSound, Traced;
    InstallingKeeps(m, Finished(m, r), m.running[r].next);
  }

  /** Spending a token that was current until now. */
  lemma SpendingKeeps(m: Machine, n: Machine, h: string, c: Consumed, added: string)
    requires SpentSound(m) && h in m.drawn && h !in m.spent
    requires c.family in m.expiry && c.refreshExpiresAt == m.expiry[c.family]
    requires n.spent == m.spent[h := c] && n.tables.consumed == m.tables.consumed[h := c]
              && n.exchanged == m.exchanged + [h]
    requires n.drawn == m.drawn && n.expiry == m.expiry && n.horizon == m.horizon && n.now == m.now
    requires added !in m.spent && added != h
    requires forall k :: k in n.tables.index ==> k != h && (k in m.tables.index || k == added)
    ensures SpentSound(n)
  {
  }

  lemma ExchangeKeepsSpent(m: Machine, r: nat)
    requires Sound(m) && Rotates(m, r)
    ensures SpentSound(Finished(m, r))
  {
    var x := m.running[r];
    RotationFacts(m, r);
    var s := m.tables.sessions[x.expected];
    assert s.family in m.expiry && s.refreshExpiresAt == m.expiry[s.family] by {
      hide SpentSound, Indexed, AllRunningSound;
    }
    hide SpentSound, Indexed, AllRunningSound, RunningSound, IssuedSound, Traced;
    SpendingKeeps(m, Finished(m, r), x.refreshHash, Consumed(s.family, s.refreshExpiresAt), x.next.refreshHash);
  }

  lemma ExchangeKeepsOther(m: Machine, r: nat, q: nat)
    requires AllRunningSound(m) && r in m.running && q in m.running && q != r && Rotates(m, r)
    requires m.tables.sessions[m.running[r].expected].refreshHash == m.running[r].refreshHash
    ensures RunningSound(Finished(m, r), m.running[q])
  {
    assert RunningSound(m, m.running[q]) && RunningSound(m, m.running[r]);
    assert m.running[q].next.accessHash != m.running[r].next.accessHash;
    NotSpentByRotation(m, q, m.running[r].refreshHash);
    StillSound(m, Finished(m, r), m.running[q]);
  }

  lemma ExchangeKeepsRunning(m: Machine, r: nat)
    requires Sound(m) && Rotates(m, r)
    ensures AllRunningSound(Finished(m, r))
  {
    IndexInverse(m.tables, m.running[r].refreshHash);
    hide Indexed, SpentSound, IssuedSound, Traced, RunningSound, Rotated;
    forall q | q in m.running - {r} ensures RunningSound(Finished(m, r), m.running[q]) {
      ExchangeKeepsOther(m, r, q);
    }
  }

  lemma FinishKeeps(m: Machine, r: nat)
    requires Sound(m) && r in m.running
    ensures Sound(Finished(m, r))
  {
    var x := m.running[r];
    if Rotates(m, r) {
      ExchangeKeepsIndexed(m, r);
      ExchangeKeepsIssued(m, r);
      ExchangeKeepsSpent(m, r);
      ExchangeKeepsRunning(m, r);
    } else {
      ReplayKeeps(m, x.refreshHash);
      LeaveKeeps(m.(tables := Replayed(m.tables, x.refreshHash)), r);
    }
    hide Indexed, IssuedSound, Traced, SpentSound, AllRunningSound, Replayed;
  }

  lemma ReadBindingTraced(m: Machine, b: nat, access: string, deviceId: string)
    requires Indexed(m.tables) && Traced(m)
    ensures Traced(BindingRead(m, b, access, deviceId))
  {
  }

  /** Reading a session for a binding takes a copy of it. */
  lemma ReadBindingKeeps(m: Machine, b: nat, access: string, deviceId: string)
    requires Sound(m)
    ensures Sound(BindingRead(m, b, access, deviceId))
  {
    var n := BindingRead(m, b, access, deviceId);
    ReadBindingTraced(m, b, access, deviceId);
    NothingInstalled(m, n);
    hide Indexed, Traced, AllRunningSound, Sound;
    QuietKeeps(m, n);
  }

  /** A copy agrees with the session it was taken from, if that is still there. */
  lemma CopyAgrees(m: Machine, b: nat)
    requires Indexed(m.tables) && Traced(m) && b in m.binding && m.binding[b].accessHash in m.tables.sessions
    ensures SameSession(m.binding[b], m.tables.sessions[m.binding[b].accessHash])
  {
  }

  lemma WriteBindingIndexed(m: Machine, b: nat)
    requires Indexed(m.tables) && Traced(m) && b in m.binding
    ensures var n := BindingWritten(m, b);
            && Indexed(n.tables) && Traced(n)
            && (EveryIndexed(m.tables) ==> (EveryIndexed(n.tables) <==> m.binding[b].accessHash in m.tables.sessions))
            && (OnePerFamily(m.tables) ==> (OnePerFamily(n.tables) <==>
                m.binding[b].accessHash in m.tables.sessions
                || forall a :: a in m.tables.sessions ==> m.tables.sessions[a].family != m.binding[b].family))
  {
    if m.binding[b].accessHash in m.tables.sessions {
      CopyAgrees(m, b);
    }
    WritingBack(m.tables, m.binding[b]);
    hide EveryIndexed, OnePerFamily, Indexed;
  }

  lemma WriteBindingKeeps(m: Machine, b: nat)
    requires Sound(m) && b in m.binding
    ensures Sound(BindingWritten(m, b))
  {
    WriteBindingIndexed(m, b);
    NothingInstalled(m, BindingWritten(m, b));
    hide Indexed, Traced, AllRunningSound, Sound;
    QuietKeeps(m, BindingWritten(m, b));
  }

  lemma ClearTraced(m: Machine, access: string, deviceId: string)
    requires Indexed(m.tables) && Traced(m)
    ensures var n := m.(tables := Cleared(m.tables, access, deviceId));
            && Indexed(n.tables) && Traced(n)
            && (EveryIndexed(m.tables) ==> EveryIndexed(n.tables))
            && (OnePerFamily(m.tables) ==> OnePerFamily(n.tables))
  {
    if Clears(m.tables, access, deviceId) {
      WritingBack(m.tables, m.tables.sessions[access].(deviceId := ""));
    }
    hide Indexed, EveryIndexed, OnePerFamily;
  }

  lemma ClearKeeps(m: Machine, access: string, deviceId: string)
    requires Sound(m)
    ensures Sound(m.(tables := Cleared(m.tables, access, deviceId)))
  {
    var n := m.(tables := Cleared(m.tables, access, deviceId));
    ClearTraced(m, access, deviceId);
    NothingInstalled(m, n);
    hide Indexed, Traced, AllRunningSound, Sound;
    QuietKeeps(m, n);
  }

  lemma CleanupKeeps(m: Machine, cutoff: int, batch: nat, gone: set<string>)
    requires Sound(m) && Enabled(m, Cleanup(cutoff, batch, gone))
    ensures Sound(Apply(m, Cleanup(cutoff, batch, gone)))
  {
    ForgettingKeepsSpent(m, cutoff);
    ForgettingKeepsRest(m, cutoff);
    var n := m.(tables := m.tables.(consumed := Forgotten(m.tables.consumed, cutoff)),
        horizon := if m.horizon < cutoff then cutoff else m.horizon);
    DropKeeps(n, gone);
    hide Sound;
  }

  lemma ForgettingKeepsSpent(m: Machine, cutoff: int)
    requires Sound(m) && cutoff <= m.now
    ensures SpentSound(m.(tables := m.tables.(consumed := Forgotten(m.tables.consumed, cutoff)),
              horizon := if m.horizon < cutoff then cutoff else m.horizon))
  {
    hide Indexed, IssuedSound, Traced, AllRunningSound;
  }

  lemma ForgettingKeepsRest(m: Machine, cutoff: int)
    requires Sound(m)
    ensures var n := m.(tables := m.tables.(consumed := Forgotten(m.tables.consumed, cutoff)),
              horizon := if m.horizon < cutoff then cutoff else m.horizon);
            Indexed(n.tables) && IssuedSound(n) && Traced(n) && AllRunningSound(n)
  {
    hide SpentSound;
    NothingInstalled(m, m.(tables := m.tables.(consumed := Forgotten(m.tables.consumed, cutoff)),
        horizon := if m.horizon < cutoff then cutoff else m.horizon));
    hide AllRunningSound;
  }

  lemma LogoutKeeps(m: Machine, refreshHash: string)
    requires Sound(m)
    ensures Sound(Apply(m, Logout(refreshHash)))
  {
    hide Sound, Replayed, Without, InFamily;
    ReplayKeeps(m, refreshHash);
    DropKeeps(m, InFamily(m.tables, ""));
    if refreshHash in m.tables.index && m.tables.index[refreshHash] in m.tables.sessions {
      DropKeeps(m, InFamily(m.tables, m.tables.sessions[m.tables.index[refreshHash]].family));
    }
  }

  lemma TickKeeps(m: Machine, to: int)
    requires Sound(m) && m.now <= to
    ensures Sound(m.(now := to))
  {
    var n := m.(now := to);
    NothingInstalled(m, n);
    assert Traced(n);
    hide Indexed, Traced, AllRunningSound, Sound;
    QuietKeeps(m, n);
  }

  lemma ApplyKeeps(m: Machine, action: Action)
    requires Sound(m) && Enabled(m, action)
    ensures Sound(Apply(m, action))
  {
    hide Indexed, IssuedSound, Traced, AllRunningSound, SpentSound;
    match action
    case Tick(to) => TickKeeps(m, to);
    case Login(access, refresh, product, audience, user) => LoginKeeps(m, access, refresh, product, audience, user);
    case BeginRefresh(r, refreshHash, access, refresh, admitted) =>
      BeginKeeps(m, r, refreshHash, access, refresh, admitted);
    case FinishRefresh(r) => FinishKeeps(m, r);
    case Abandon(r) => LeaveKeeps(m, r);
    case Logout(refreshHash) => LogoutKeeps(m, refreshHash);
    case RevokeAccess(access) => DropKeeps(m, {access} * m.tables.sessions.Keys);
    case RevokeUser(user) => DropKeeps(m, set a | a in m.tables.sessions && m.tables.sessions[a].user == user);
    case RevokeDevice(deviceId, product) =>
      DropKeeps(m, set a | a in m.tables.sessions && m.tables.sessions[a].deviceId == deviceId
          && m.tables.sessions[a].product == product);
    case ReadBinding(b, access, deviceId) => ReadBindingKeeps(m, b, access, deviceId);
    case WriteBinding(b) => WriteBindingKeeps(m, b);
    case ClearDevice(access, deviceId) => ClearKeeps(m, access, deviceId);
    case Cleanup(cutoff, batch, gone) => CleanupKeeps(m, cutoff, batch, gone);
  }

  lemma {:induction false} RunKeeps(m: Machine, actions: seq<Action>)
    requires Sound(m) && Possible(m, actions)
    ensures Sound(Run(m, actions))
    decreases |actions|
  {
    hide Sound, Apply, Enabled;
    if actions != [] {
      ApplyKeeps(m, actions[0]);
      RunKeeps(Apply(m, actions[0]), actions[1..]);
    }
  }

  lemma ReachableIsSound(now: int, actions: seq<Action>)
    requires Possible(Initial(now), actions)
    ensures Sound(Run(Initial(now), actions))
  {
    hide Sound, Run, Possible;
    InitialIsSound(now);
    RunKeeps(Initial(now), actions);
  }
}
