/** Users, nicks and channels: the registry keeps membership symmetric between users and
    channels, and each folded nick pointing at the one live user who has it. */
module Registry {
  import opened Common
  import opened IrcMessages

  datatype UserId = Ip(client: nat) | Rf(callsign: string)

  datatype User = User(
    id: UserId,
    nick: string,
    hasCallsign: bool,
    nickIdentified: bool,
    oper: bool,
    channels: set<string>)

  datatype MemberFlags = MemberFlags(op: bool, voice: bool, opManual: bool, voiceManual: bool)

  datatype Channel = Channel(
    name: string,
    configured: bool,
    members: map<UserId, MemberFlags>,
    rf: bool,
    operators: set<string>)

  const UNNAMED := "*"

  function NewUser(id: UserId): User { User(id, UNNAMED, false, false, false, {}) }

  function NewChannel(name: string, rf: bool): Channel { Channel(name, false, map[], rf, {}) }

  datatype Reg = Reg(users: map<UserId, User>, nicks: map<string, UserId>, channels: map<string, Channel>)

  // ---- Specification ----

  /** The nick is free, or already this user's, and the user exists. */
  predicate MayClaim(r: Reg, id: UserId, nick: string) {
    id in r.users && (Lower(nick) in r.nicks ==> r.nicks[Lower(nick)] == id)
  }

  function Named(r: Reg, id: UserId, nick: string): Reg {
    if !MayClaim(r, id, nick) then r
    else
      r.(nicks := (r.nicks - {Lower(r.users[id].nick)})[Lower(nick) := id],
         users := r.users[id := r.users[id].(nick := nick)])
  }

  function Ensured(r: Reg, name: string, rf: bool): Reg {
    if Lower(name) in r.channels then r else r.(channels := r.channels[Lower(name) := NewChannel(name, rf)])
  }

  /** The privileges that follow from who the user is and from being the first to join. */
  function DerivedFlags(r: Reg, id: UserId, rf: bool, first: bool, operators: set<string>): MemberFlags {
    if id !in r.users then MemberFlags(false, false, false, false)
    else
      var user := r.users[id];
      var configuredOp := Lower(user.nick) in operators && user.nickIdentified;
      if rf then MemberFlags(user.oper || configuredOp, user.hasCallsign || user.oper, false, false)
      else MemberFlags((first && !id.Rf?) || user.oper || configuredOp, false, false, false)
  }

  predicate MayJoin(r: Reg, id: UserId, key: string) {
    id in r.users && key in r.channels && id !in r.channels[key].members
  }

  function JoinFlags(r: Reg, id: UserId, key: string): MemberFlags
    requires key in r.channels
  {
    DerivedFlags(r, id, r.channels[key].rf, r.channels[key].members == map[], r.channels[key].operators)
  }

  function JoinedAt(r: Reg, id: UserId, key: string): Reg {
    if !MayJoin(r, id, key) then r
    else
      r.(channels := r.channels[key := r.channels[key].(members := r.channels[key].members[id := JoinFlags(r, id, key)])],
         users := r.users[id := r.users[id].(channels := r.users[id].channels + {key})])
  }

  predicate Deserted(channels: map<string, Channel>, key: string) {
    key in channels && !channels[key].configured && channels[key].members == map[]
  }

  function Reaped(channels: map<string, Channel>, key: string): map<string, Channel> {
    if Deserted(channels, key) then channels - {key} else channels
  }

  function Without(channels: map<string, Channel>, key: string, id: UserId): map<string, Channel> {
    if key in channels then channels[key := channels[key].(members := channels[key].members - {id})] else channels
  }

  function Parted(r: Reg, id: UserId, key: string): Reg {
    if key !in r.channels then r
    else
      Reg(if id in r.users then r.users[id := r.users[id].(channels := r.users[id].channels - {key})] else r.users,
          r.nicks, Reaped(Without(r.channels, key, id), key))
  }

  /** The user taken out of the first `n` of these channels, reaping as it goes. */
  function Cleared(channels: map<string, Channel>, id: UserId, keys: seq<string>, n: nat): map<string, Channel>
    requires n <= |keys|
  {
    if n == 0 then channels
    else
      var before := Cleared(channels, id, keys, n - 1);
      Reaped(Without(before, keys[n - 1], id), keys[n - 1])
  }

  function Removed(r: Reg, id: UserId, keys: seq<string>): Reg {
    if id !in r.users then r
    else Reg(r.users - {id}, r.nicks - {Lower(r.users[id].nick)}, Cleared(r.channels, id, keys, |keys|))
  }

  function IntendedFlags(r: Reg, id: UserId, key: string): MemberFlags
    requires key in r.channels && id in r.channels[key].members
  {
    var held := r.channels[key].members[id];
    var derived := DerivedFlags(r, id, r.channels[key].rf, false, r.channels[key].operators);
    MemberFlags(derived.op || held.opManual, derived.voice || held.voiceManual, held.opManual, held.voiceManual)
  }

  function Refreshed(r: Reg, id: UserId, key: string): Reg {
    if key !in r.channels || id !in r.channels[key].members then r
    else
      r.(channels := r.channels[key := r.channels[key].(members := r.channels[key].members[id := IntendedFlags(r, id, key)])])
  }

  /** `MODE +o`, `-o`, `+v` and `-v`: a privilege granted or taken by hand. */
  function Granted(r: Reg, id: UserId, key: string, op: bool, adding: bool): Reg {
    if key !in r.channels || id !in r.channels[key].members then r
    else
      var held := r.channels[key].members[id];
      var flags := if op then held.(op := adding, opManual := adding) else held.(voice := adding, voiceManual := adding);
      r.(channels := r.channels[key := r.channels[key].(members := r.channels[key].members[id := flags])])
  }

  /** `MODE +r` and `-r`: a channel becoming an RF channel forgets who was made operator by hand. */
  function Marked(r: Reg, key: string, adding: bool): Reg {
    if key !in r.channels || r.channels[key].rf == adding then r
    else
      var members := r.channels[key].members;
      r.(channels := r.channels[key := r.channels[key].(
           rf := adding,
           members := if adding then map j | j in members :: members[j].(opManual := false) else members)])
  }

  /** A channel of the server's configuration: created if need be, and never reaped. */
  function Configured(r: Reg, name: string, rf: bool, operators: set<string>): Reg {
    var e := Ensured(r, name, rf);
    e.(channels := e.channels[Lower(name) := e.channels[Lower(name)].(configured := true, operators := operators)])
  }

  /** What the server learns of a user: a callsign, a password for the nick, control operator. */
  function Described(r: Reg, id: UserId, hasCallsign: bool, identified: bool, oper: bool): Reg {
    if id !in r.users then r
    else r.(users := r.users[id := r.users[id].(hasCallsign := hasCallsign, nickIdentified := identified, oper := oper)])
  }

  // ---- The registry in place ----

  class State {
    var users: map<UserId, User>
    var nicks: map<string, UserId>
    var channels: map<string, Channel>

    ghost function Contents(): Reg
      reads this
    {
      Reg(users, nicks, channels)
    }

    constructor ()
      ensures Contents() == Reg(map[], map[], map[])
    {
      users, nicks, channels := map[], map[], map[];
    }

    method InsertUser(user: User)
      modifies this`users
      ensures users == old(users)[user.id := user]
    {
      users := users[user.id := user];
    }

    method SetNick(id: UserId, nick: string) returns (claimed: bool)
      modifies this
      ensures Contents() == Named(old(Contents()), id, nick) && claimed == MayClaim(old(Contents()), id, nick)
    {
      if id !in users {
        return false;
      }
      var key := Lower(nick);
      if key in nicks && nicks[key] != id {
        return false;
      }
      nicks := nicks - {Lower(users[id].nick)};
      nicks := nicks[key := id];
      users := users[id := users[id].(nick := nick)];
      return true;
    }

    method EnsureChannel(name: string, rf: bool)
      modifies this`channels
      ensures Contents() == Ensured(old(Contents()), name, rf)
    {
      if Lower(name) !in channels {
        channels := channels[Lower(name) := NewChannel(name, rf)];
      }
    }

    method Join(id: UserId, channel: string) returns (flags: Option<MemberFlags>)
      modifies this
      ensures Contents() == JoinedAt(old(Contents()), id, Lower(channel))
      ensures flags == if MayJoin(old(Contents()), id, Lower(channel)) then Some(JoinFlags(old(Contents()), id, Lower(channel))) else None
    {
      if id !in users {
        return None;
      }
      var key := Lower(channel);
      if key !in channels {
        return None;
      }
      var chan := channels[key];
      if id in chan.members {
        return None;
      }
      var f := DerivedFlags(Reg(users, nicks, channels), id, chan.rf, chan.members == map[], chan.operators);
      channels := channels[key := chan.(members := chan.members[id := f])];
      users := users[id := users[id].(channels := users[id].channels + {key})];
      return Some(f);
    }

    method ReapChannel(key: string)
      modifies this`channels
      ensures channels == Reaped(old(channels), key)
    {
      if key in channels && !channels[key].configured && channels[key].members == map[] {
        channels := channels - {key};
      }
    }

    method Part(id: UserId, channel: string) returns (wasMember: bool)
      modifies this
      ensures Contents() == Parted(old(Contents()), id, Lower(channel))
      ensures wasMember == (Lower(channel) in old(channels) && id in old(channels)[Lower(channel)].members)
    {
      var key := Lower(channel);
      if key !in channels {
        return false;
      }
      wasMember := id in channels[key].members;
      channels := channels[key := channels[key].(members := channels[key].members - {id})];
      if id in users {
        users := users[id := users[id].(channels := users[id].channels - {key})];
      }
      ReapChannel(key);
    }

    method RemoveUser(id: UserId) returns (names: seq<string>, ghost keys: seq<string>)
      modifies this
      ensures id in old(users) ==> Enumerates(keys, old(users)[id].channels)
      ensures Contents() == Removed(old(Contents()), id, keys)
    {
      names, keys := [], [];
      if id !in users {
        return;
      }
      var user := users[id];
      users := users - {id};
      nicks := nicks - {Lower(user.nick)};
      var order := Enumerate(user.channels);
      keys := order;
      ghost var before := channels;
      for i := 0 to |order|
        invariant channels == Cleared(before, id, order, i)
        invariant users == old(users) - {id} && nicks == old(nicks) - {Lower(user.nick)}
      {
        var key := order[i];
        if key in channels {
          channels := channels[key := channels[key].(members := channels[key].members - {id})];
          names := names + [channels[key].name];
        }
        ReapChannel(key);
      }
    }

    method ApplyIntendedFlags(id: UserId, channel: string) returns (moved: Option<(MemberFlags, MemberFlags)>)
      modifies this`channels
      ensures Contents() == Refreshed(old(Contents()), id, Lower(channel))
      ensures moved.None? ==> channels == old(channels)
      ensures moved.Some? ==> moved.value.0 != moved.value.1
    {
      var key := Lower(channel);
      if key !in channels || id !in channels[key].members {
        return None;
      }
      var held := channels[key].members[id];
      var derived := DerivedFlags(Reg(users, nicks, channels), id, channels[key].rf, false, channels[key].operators);
      var next := MemberFlags(derived.op || held.opManual, derived.voice || held.voiceManual, held.opManual, held.voiceManual);
      if held == next {
        assert channels[key].members == channels[key].members[id := next];
        assert channels[key] == channels[key].(members := channels[key].members[id := next]);
        assert channels == channels[key := channels[key]];
        return None;
      }
      channels := channels[key := channels[key].(members := channels[key].members[id := next])];
      return Some((held, next));
    }
  }

  // ---- The invariant ----

  /** A user's channels and a channel's members agree. */
  predicate Symmetric(users: map<UserId, User>, channels: map<string, Channel>) {
    && (forall id, k :: id in users && k in users[id].channels ==> k in channels && id in channels[k].members)
    && (forall k, id :: k in channels && id in channels[k].members ==> id in users && k in users[id].channels)
  }

  /** Each nick entry is the folded nick of the live user it points to, and each named user has one. */
  predicate NicksOk(users: map<UserId, User>, nicks: map<string, UserId>) {
    && UNNAMED !in nicks
    && (forall n :: n in nicks ==> nicks[n] in users && Lower(users[nicks[n]].nick) == n)
    && (forall id :: id in users && users[id].nick != UNNAMED ==>
          Lower(users[id].nick) in nicks && nicks[Lower(users[id].nick)] == id)
  }

  ghost predicate RegOk(r: Reg) {
    && Symmetric(r.users, r.channels) && NicksOk(r.users, r.nicks)
    && (forall id :: id in r.users ==> r.users[id].id == id)
  }

  lemma LowerOfUnnamed(nick: string)
    ensures Lower(nick) == UNNAMED <==> nick == UNNAMED
  {
    if Lower(nick) == UNNAMED {
      assert Lower(nick)[0] == LowerChar(nick[0]);
      assert nick == [nick[0]];
    }
  }

  lemma NamedKeeps(r: Reg, id: UserId, nick: string)
    requires RegOk(r) && nick != UNNAMED
    ensures RegOk(Named(r, id, nick))
  {
    LowerOfUnnamed(nick);
    if MayClaim(r, id, nick) {
      LowerOfUnnamed(r.users[id].nick);
    }
  }

  lemma InsertKeeps(r: Reg, id: UserId)
    requires RegOk(r) && id !in r.users
    ensures RegOk(r.(users := r.users[id := NewUser(id)]))
  {
  }

  lemma EnsureKeeps(r: Reg, name: string, rf: bool)
    requires RegOk(r)
    ensures RegOk(Ensured(r, name, rf))
  {
  }

  lemma JoinKeeps(r: Reg, id: UserId, key: string)
    requires RegOk(r)
    ensures RegOk(JoinedAt(r, id, key))
  {
  }

  /** Only this user is in it. */
  predicate OnlyMember(c: Channel, id: UserId) {
    forall j :: j in c.members ==> j == id
  }

  lemma EmptiedMeansOnly(c: Channel, id: UserId)
    ensures c.members - {id} == map[] <==> OnlyMember(c, id)
  {
    assert forall j :: j in c.members && j != id ==> j in c.members - {id};
  }

  lemma PartKeeps(r: Reg, id: UserId, key: string)
    requires RegOk(r)
    ensures RegOk(Parted(r, id, key))
    ensures !Deserted(Parted(r, id, key).channels, key)
    ensures forall k :: Deserted(Parted(r, id, key).channels, k) ==> Deserted(r.channels, k)
  {
    if key in r.channels {
      EmptiedMeansOnly(r.channels[key], id);
    }
  }

  /** Channel `k` once the user was taken out of some channels: gone if it held nobody else. */
  predicate ClearedChannel(before: map<string, Channel>, after: map<string, Channel>, id: UserId, k: string, touched: bool) {
    && (k in after ==> k in before && after[k].configured == before[k].configured)
    && (k in after ==> after[k].members == if touched then before[k].members - {id} else before[k].members)
    && (k in before && k !in after ==> OnlyMember(before[k], id))
    && (Deserted(after, k) ==> !touched && Deserted(before, k))
  }

  lemma {:induction false} ClearedAt(channels: map<string, Channel>, id: UserId, keys: seq<string>, n: nat, k: string)
    requires n <= |keys|
    ensures ClearedChannel(channels, Cleared(channels, id, keys, n), id, k, k in keys[..n])
  {
    if n > 0 {
      ClearedAt(channels, id, keys, n - 1, k);
      assert keys[..n] == keys[..n - 1] + [keys[n - 1]];
      if k == keys[n - 1] && k in channels {
        EmptiedMeansOnly(channels[k], id);
      }
    }
  }

  lemma RemoveChannels(users: map<UserId, User>, channels: map<string, Channel>, id: UserId, after: map<string, Channel>)
    requires Symmetric(users, channels) && id in users
    requires forall k :: ClearedChannel(channels, after, id, k, k in users[id].channels)
    ensures Symmetric(users - {id}, after)
    ensures forall k :: k in after ==> id !in after[k].members
    ensures forall k :: Deserted(after, k) ==> Deserted(channels, k)
  {
    forall k, j | k in after && j in after[k].members ensures j != id && j in users && k in users[j].channels {
      assert ClearedChannel(channels, after, id, k, k in users[id].channels);
    }
    forall j, k | j in users - {id} && k in users[j].channels ensures k in after && j in after[k].members {
      assert ClearedChannel(channels, after, id, k, k in users[id].channels);
    }
    forall k | Deserted(after, k) ensures Deserted(channels, k) {
      assert ClearedChannel(channels, after, id, k, k in users[id].channels);
    }
  }

  lemma RemoveNicks(users: map<UserId, User>, nicks: map<string, UserId>, id: UserId)
    requires NicksOk(users, nicks) && id in users
    ensures NicksOk(users - {id}, nicks - {Lower(users[id].nick)})
    ensures forall n :: n in nicks - {Lower(users[id].nick)} ==> nicks[n] != id
  {
    LowerOfUnnamed(users[id].nick);
  }

  lemma RemoveKeeps(r: Reg, id: UserId, keys: seq<string>)
    requires RegOk(r) && (id in r.users ==> Enumerates(keys, r.users[id].channels))
    ensures RegOk(Removed(r, id, keys))
    ensures Gone(Removed(r, id, keys), id)
    ensures forall k :: Deserted(Removed(r, id, keys).channels, k) ==> Deserted(r.channels, k)
  {
    if id in r.users {
      EnumeratesAll(keys, r.users[id].channels);
      var after := Cleared(r.channels, id, keys, |keys|);
      forall k ensures ClearedChannel(r.channels, after, id, k, k in r.users[id].channels) {
        ClearedAt(r.channels, id, keys, |keys|, k);
        assert keys[..|keys|] == keys;
      }
      RemoveChannels(r.users, r.channels, id, after);
      RemoveNicks(r.users, r.nicks, id);
    }
  }

  /** The user appears nowhere. */
  predicate Gone(r: Reg, id: UserId) {
    && id !in r.users
    && (forall n :: n in r.nicks ==> r.nicks[n] != id)
    && (forall k :: k in r.channels ==> id !in r.channels[k].members)
  }

  lemma RefreshKeeps(r: Reg, id: UserId, key: string)
    requires RegOk(r)
    ensures RegOk(Refreshed(r, id, key))
  {
  }

  lemma GrantKeeps(r: Reg, id: UserId, key: string, op: bool, adding: bool)
    requires RegOk(r)
    ensures RegOk(Granted(r, id, key, op, adding))
  {
  }

  lemma MarkKeeps(r: Reg, key: string, adding: bool)
    requires RegOk(r)
    ensures RegOk(Marked(r, key, adding))
  {
    if key in r.channels {
      assert Marked(r, key, adding).channels[key].members.Keys == r.channels[key].members.Keys;
    }
  }

  lemma ConfigureKeeps(r: Reg, name: string, rf: bool, operators: set<string>)
    requires RegOk(r)
    ensures RegOk(Configured(r, name, rf, operators))
  {
    EnsureKeeps(r, name, rf);
  }

  lemma DescribeKeeps(r: Reg, id: UserId, hasCallsign: bool, identified: bool, oper: bool)
    requires RegOk(r)
    ensures RegOk(Described(r, id, hasCallsign, identified, oper))
  {
  }

  datatype Event =
    | Insert(id: UserId)
    | SetNick(id: UserId, nick: string)
    | Ensure(name: string, rf: bool)
    | Join(id: UserId, channel: string)
    | Part(id: UserId, channel: string)
    | Remove(id: UserId, keys: seq<string>)
    | Refresh(id: UserId, channel: string)
    | Grant(id: UserId, channel: string, op: bool, adding: bool)
    | Mark(channel: string, adding: bool)
    | Configure(name: string, rf: bool, operators: set<string>)
    | Describe(id: UserId, hasCallsign: bool, identified: bool, oper: bool)

  /** Users are inserted fresh and unnamed, and nobody claims the placeholder nick. */
  ghost predicate Allowed(r: Reg, ev: Event) {
    match ev
    case Insert(id) => id !in r.users
    case SetNick(_, nick) => nick != UNNAMED
    case Remove(id, keys) => id in r.users ==> Enumerates(keys, r.users[id].channels)
    case _ => true
  }

  function Next(r: Reg, ev: Event): Reg {
    match ev
    case Insert(id) => r.(users := r.users[id := NewUser(id)])
    case SetNick(id, nick) => Named(r, id, nick)
    case Ensure(name, rf) => Ensured(r, name, rf)
    case Join(id, channel) => JoinedAt(r, id, Lower(channel))
    case Part(id, channel) => Parted(r, id, Lower(channel))
    case Remove(id, keys) => Removed(r, id, keys)
    case Refresh(id, channel) => Refreshed(r, id, Lower(channel))
    case Grant(id, channel, op, adding) => Granted(r, id, Lower(channel), op, adding)
    case Mark(channel, adding) => Marked(r, Lower(channel), adding)
    case Configure(name, rf, operators) => Configured(r, name, rf, operators)
    case Describe(id, hasCallsign, identified, oper) => Described(r, id, hasCallsign, identified, oper)
  }

  ghost predicate IsRun(regs: seq<Reg>, evs: seq<Event>) {
    && |regs| == |evs| + 1 && regs[0] == Reg(map[], map[], map[])
    && forall i :: 0 <= i < |evs| ==> Allowed(regs[i], evs[i]) && regs[i + 1] == Next(regs[i], evs[i])
  }

  lemma NextKeeps(r: Reg, ev: Event)
    requires RegOk(r) && Allowed(r, ev)
    ensures RegOk(Next(r, ev))
  {
    match ev
    case Insert(id) => InsertKeeps(r, id);
    case SetNick(id, nick) => NamedKeeps(r, id, nick);
    case Ensure(name, rf) => EnsureKeeps(r, name, rf);
    case Join(id, channel) => JoinKeeps(r, id, Lower(channel));
    case Part(id, channel) => PartKeeps(r, id, Lower(channel));
    case Remove(id, keys) => RemoveKeeps(r, id, keys);
    case Refresh(id, channel) => RefreshKeeps(r, id, Lower(channel));
    case Grant(id, channel, op, adding) => GrantKeeps(r, id, Lower(channel), op, adding);
    case Mark(channel, adding) => MarkKeeps(r, Lower(channel), adding);
    case Configure(name, rf, operators) => ConfigureKeeps(r, name, rf, operators);
    case Describe(id, hasCallsign, identified, oper) => DescribeKeeps(r, id, hasCallsign, identified, oper);
  }

  lemma {:induction false} RunKeeps(regs: seq<Reg>, evs: seq<Event>, n: nat)
    requires IsRun(regs, evs) && n < |regs|
    ensures RegOk(regs[n])
  {
    if n > 0 {
      RunKeeps(regs, evs, n - 1);
      NextKeeps(regs[n - 1], evs[n - 1]);
    }
  }

  /** Over any run: two users with the same folded nick are one user, or both still unnamed. */
  lemma NicksAreUnique(regs: seq<Reg>, evs: seq<Event>, n: nat, a: UserId, b: UserId)
    requires IsRun(regs, evs) && n < |regs| && a in regs[n].users && b in regs[n].users
    requires Lower(regs[n].users[a].nick) == Lower(regs[n].users[b].nick)
    ensures a == b || (regs[n].users[a].nick == UNNAMED && regs[n].users[b].nick == UNNAMED)
  {
    RunKeeps(regs, evs, n);
    LowerOfUnnamed(regs[n].users[a].nick);
    LowerOfUnnamed(regs[n].users[b].nick);
  }

  /** Over any run: parting and removing leave no new deserted channel, not even the one parted
      from, and a removed user appears nowhere. */
  lemma LeavingLeavesNothing(regs: seq<Reg>, evs: seq<Event>, n: nat)
    requires IsRun(regs, evs) && n < |evs|
    ensures evs[n].Part? || evs[n].Remove? ==>
              forall k :: Deserted(regs[n + 1].channels, k) ==> Deserted(regs[n].channels, k)
    ensures evs[n].Part? ==> !Deserted(regs[n + 1].channels, Lower(evs[n].channel))
    ensures evs[n].Remove? ==> Gone(regs[n + 1], evs[n].id)
  {
    RunKeeps(regs, evs, n);
    if evs[n].Part? {
      PartKeeps(regs[n], evs[n].id, Lower(evs[n].channel));
    } else if evs[n].Remove? {
      RemoveKeeps(regs[n], evs[n].id, evs[n].keys);
    }
  }

  lemma {:induction false} ClearedConfigured(channels: map<string, Channel>, id: UserId, keys: seq<string>, n: nat, k: string)
    requires n <= |keys| && k in channels && channels[k].configured
    ensures k in Cleared(channels, id, keys, n) && Cleared(channels, id, keys, n)[k].configured
  {
    if n > 0 {
      ClearedConfigured(channels, id, keys, n - 1, k);
    }
  }

  /** Over any run: a configured channel stays, and configured, even when nobody is in it. */
  lemma {:induction false} ConfiguredStays(regs: seq<Reg>, evs: seq<Event>, n: nat, m: nat, k: string)
    requires IsRun(regs, evs) && n <= m < |regs| && k in regs[n].channels && regs[n].channels[k].configured
    ensures k in regs[m].channels && regs[m].channels[k].configured
  {
    if n < m {
      ConfiguredStays(regs, evs, n, m - 1, k);
      var r, ev := regs[m - 1], evs[m - 1];
      if ev.Remove? {
        ClearedConfigured(r.channels, ev.id, ev.keys, |ev.keys|, k);
      }
    }
  }

  // ---- Privileges granted by hand ----

  predicate ByHand(f: MemberFlags, op: bool) { if op then f.opManual else f.voiceManual }

  predicate InForce(f: MemberFlags, op: bool) { if op then f.op else f.voice }

  predicate Holds(r: Reg, id: UserId, k: string, op: bool) {
    && k in r.channels && id in r.channels[k].members
    && ByHand(r.channels[k].members[id], op) && InForce(r.channels[k].members[id], op)
  }

  /** This takes the privilege away again, or takes the user out of the channel. */
  predicate Takes(ev: Event, id: UserId, k: string, op: bool) {
    match ev
    case Grant(j, channel, o, adding) => j == id && Lower(channel) == k && o == op && !adding
    case Mark(channel, adding) => op && Lower(channel) == k && adding
    case Part(j, channel) => j == id && Lower(channel) == k
    case Remove(j, _) => j == id
    case _ => false
  }

  lemma RemoveLeavesHolder(r: Reg, j: UserId, keys: seq<string>, id: UserId, k: string, op: bool)
    requires Holds(r, id, k, op) && j != id
    ensures Holds(Removed(r, j, keys), id, k, op)
  {
    if j in r.users {
      ClearedMembers(r.channels, j, keys, |keys|, k, id);
    }
  }

  lemma {:induction false} ClearedMembers(channels: map<string, Channel>, j: UserId, keys: seq<string>, n: nat, k: string, id: UserId)
    requires n <= |keys| && j != id && k in channels && id in channels[k].members
    ensures var after := Cleared(channels, j, keys, n);
            k in after && id in after[k].members && after[k].members[id] == channels[k].members[id]
  {
    if n > 0 {
      ClearedMembers(channels, j, keys, n - 1, k, id);
      assert id in Cleared(channels, j, keys, n - 1)[k].members - {j};
    }
  }

  lemma HolderStays(r: Reg, ev: Event, id: UserId, k: string, op: bool)
    requires Holds(r, id, k, op) && !Takes(ev, id, k, op)
    ensures Holds(Next(r, ev), id, k, op)
  {
    if ev.Remove? {
      RemoveLeavesHolder(r, ev.id, ev.keys, id, k, op);
    } else if ev.Part? {
      var key := Lower(ev.channel);
      assert key == k ==> id in r.channels[k].members - {ev.id};
    }
  }

  /** Over any run, whatever else joins, leaves, is renamed or recomputed: a privilege granted by
      hand is in force until it is taken by hand, or its holder leaves the channel. */
  lemma {:induction false} ManualFlagsStay(regs: seq<Reg>, evs: seq<Event>, n: nat, m: nat, id: UserId, channel: string, op: bool)
    requires IsRun(regs, evs) && n < m < |regs| && evs[n] == Grant(id, channel, op, true)
    requires Lower(channel) in regs[n].channels && id in regs[n].channels[Lower(channel)].members
    requires forall i :: n < i < m ==> !Takes(evs[i], id, Lower(channel), op)
    ensures Holds(regs[m], id, Lower(channel), op)
  {
    if m > n + 1 {
      ManualFlagsStay(regs, evs, n, m - 1, id, channel, op);
      HolderStays(regs[m - 1], evs[m - 1], id, Lower(channel), op);
    }
  }

  // ---- Where a privilege comes from ----

  /** Recognised as an operator: a control operator, or a nick the channel lists and its password. */
  predicate KnownOperator(r: Reg, id: UserId, k: string) {
    && id in r.users && k in r.channels
    && (r.users[id].oper || (r.users[id].nickIdentified && Lower(r.users[id].nick) in r.channels[k].operators))
  }

  /** Recognised on an RF channel: a callsign, or a control operator. */
  predicate KnownVoice(r: Reg, id: UserId, k: string) {
    && id in r.users && k in r.channels && r.channels[k].rf
    && (r.users[id].hasCallsign || r.users[id].oper)
  }

  /** The first to join a channel that is not an RF channel, other than by radio, founds it. */
  predicate Founds(r: Reg, id: UserId, k: string) {
    k in r.channels && !r.channels[k].rf && r.channels[k].members == map[] && id.Ip?
  }

  /** This event gives the user the privilege in the channel. */
  predicate Gives(r: Reg, ev: Event, id: UserId, k: string, op: bool) {
    match ev
    case Join(j, channel) =>
      && j == id && Lower(channel) == k
      && if op then KnownOperator(r, id, k) || (id in r.users && Founds(r, id, k)) else KnownVoice(r, id, k)
    case Refresh(j, channel) => j == id && Lower(channel) == k && if op then KnownOperator(r, id, k) else KnownVoice(r, id, k)
    case Grant(j, channel, o, adding) => j == id && Lower(channel) == k && o == op && adding
    case _ => false
  }

  predicate HasNow(r: Reg, id: UserId, k: string, op: bool) {
    k in r.channels && id in r.channels[k].members && InForce(r.channels[k].members[id], op)
  }

  /** Joining gives exactly the privileges the user is known for, and none by hand. */
  lemma JoinGivesExactly(r: Reg, id: UserId, channel: string, op: bool)
    requires id in r.users && Lower(channel) in r.channels && id !in r.channels[Lower(channel)].members
    ensures var k, r' := Lower(channel), Next(r, Join(id, channel));
            && k in r'.channels && id in r'.channels[k].members && k in r'.users[id].channels
            && (HasNow(r', id, k, op) <==> Gives(r, Join(id, channel), id, k, op))
            && !ByHand(r'.channels[k].members[id], op)
  {
  }

  /** Recomputing them leaves exactly those, and what was given by hand. */
  lemma RefreshGivesExactly(r: Reg, id: UserId, channel: string, op: bool)
    requires id in r.users && Lower(channel) in r.channels && id in r.channels[Lower(channel)].members
    ensures var k, r' := Lower(channel), Next(r, Refresh(id, channel));
            && k in r'.channels && id in r'.channels[k].members
            && (HasNow(r', id, k, op) <==> Gives(r, Refresh(id, channel), id, k, op) || ByHand(r.channels[k].members[id], op))
            && (ByHand(r'.channels[k].members[id], op) <==> ByHand(r.channels[k].members[id], op))
  {
  }

  /** A privilege given or taken by hand is in force or not from then on, and nobody else's changes. */
  lemma GrantExactly(r: Reg, id: UserId, channel: string, op: bool, adding: bool, other: UserId, o: bool)
    requires Lower(channel) in r.channels && id in r.channels[Lower(channel)].members && other in r.channels[Lower(channel)].members
    ensures var k, r' := Lower(channel), Next(r, Grant(id, channel, op, adding));
            && k in r'.channels && r'.channels[k].members.Keys == r.channels[k].members.Keys
            && InForce(r'.channels[k].members[id], op) == ByHand(r'.channels[k].members[id], op) == adding
            && (other != id || o != op ==>
                  && InForce(r'.channels[k].members[other], o) == InForce(r.channels[k].members[other], o)
                  && ByHand(r'.channels[k].members[other], o) == ByHand(r.channels[k].members[other], o))
  {
  }

  /** A channel marked as an RF channel forgets which operators were made by hand, and nothing of who was
      given voice; what is in force changes only when privileges are recomputed. */
  lemma MarkExactly(r: Reg, channel: string, adding: bool, id: UserId)
    requires Lower(channel) in r.channels && id in r.channels[Lower(channel)].members
    ensures var c, c' := r.channels[Lower(channel)], Next(r, Mark(channel, adding)).channels[Lower(channel)];
            && c'.rf == adding && c'.members.Keys == c.members.Keys
            && (ByHand(c'.members[id], true) <==> ByHand(c.members[id], true) && (!adding || c.rf))
            && ByHand(c'.members[id], false) == ByHand(c.members[id], false)
            && forall o: bool :: InForce(c'.members[id], o) == InForce(c.members[id], o)
  {
  }

  lemma {:induction false} ClearedKeepsFlags(channels: map<string, Channel>, j: UserId, keys: seq<string>, n: nat, k: string, id: UserId)
    requires n <= |keys|
    ensures var after := Cleared(channels, j, keys, n);
            k in after && id in after[k].members ==>
              k in channels && id in channels[k].members && after[k].members[id] == channels[k].members[id]
  {
    if n > 0 {
      ClearedKeepsFlags(channels, j, keys, n - 1, k, id);
    }
  }

  /** What is given by hand was given by an event of its own. */
  predicate HandOk(r: Reg, id: UserId, k: string, op: bool) {
    k in r.channels && id in r.channels[k].members && ByHand(r.channels[k].members[id], op) ==>
      InForce(r.channels[k].members[id], op)
  }

  lemma StepGives(r: Reg, ev: Event, id: UserId, k: string, op: bool)
    requires Allowed(r, ev) && HandOk(r, id, k, op)
    ensures HasNow(Next(r, ev), id, k, op) && !HasNow(r, id, k, op) ==> Gives(r, ev, id, k, op)
    ensures HandOk(Next(r, ev), id, k, op)
  {
    if ev.Remove? {
      ClearedKeepsFlags(r.channels, ev.id, ev.keys, |ev.keys|, k, id);
    }
  }

  lemma {:induction false} HandGrantsHold(regs: seq<Reg>, evs: seq<Event>, n: nat, id: UserId, k: string, op: bool)
    requires IsRun(regs, evs) && n < |regs|
    ensures HandOk(regs[n], id, k, op)
  {
    if n > 0 {
      HandGrantsHold(regs, evs, n - 1, id, k, op);
      StepGives(regs[n - 1], evs[n - 1], id, k, op);
    }
  }

  /** Over any run, whoever has a privilege in a channel was given it by some event: joining as the
      first, or being known, when joining or when it was recomputed, or by hand. */
  lemma {:induction false} PrivilegeHasCause(regs: seq<Reg>, evs: seq<Event>, n: nat, id: UserId, k: string, op: bool) returns (m: nat)
    requires IsRun(regs, evs) && n < |regs| && HasNow(regs[n], id, k, op)
    ensures m < n && Gives(regs[m], evs[m], id, k, op)
    ensures forall i :: m < i <= n ==> HasNow(regs[i], id, k, op)
  {
    HandGrantsHold(regs, evs, n - 1, id, k, op);
    StepGives(regs[n - 1], evs[n - 1], id, k, op);
    m := n - 1;
    if HasNow(regs[n - 1], id, k, op) {
      m := PrivilegeHasCause(regs, evs, n - 1, id, k, op);
    }
  }

  // ---- Which nicks may be claimed ----

  /** As a run, but claims are of these nicks and of any of them. */
  ghost predicate IsRunOf(nicks: iset<string>, regs: seq<Reg>, evs: seq<Event>) {
    && |regs| == |evs| + 1 && regs[0] == Reg(map[], map[], map[])
    && forall i :: 0 <= i < |evs| ==>
         && ((evs[i].SetNick? && evs[i].nick == UNNAMED) || Allowed(regs[i], evs[i]))
         && (evs[i].SetNick? ==> evs[i].nick in nicks)
         && regs[i + 1] == Next(regs[i], evs[i])
  }

  /** The user claims another nick, or goes. */
  predicate GivesUp(r: Reg, ev: Event, id: UserId) {
    (ev.SetNick? && ev.id == id && MayClaim(r, id, ev.nick)) || (ev.Remove? && ev.id == id)
  }

  /** The nick claimed at `i` still has its entry at `m`, if it was not given up in between. */
  ghost predicate KeptFrom(regs: seq<Reg>, evs: seq<Event>, i: nat, m: nat)
    requires |regs| == |evs| + 1
  {
    i < m < |regs| && evs[i].SetNick? && MayClaim(regs[i], evs[i].id, evs[i].nick)
    && (forall j :: i < j < m ==> !GivesUp(regs[j], evs[j], evs[i].id)) ==>
      Lower(evs[i].nick) in regs[m].nicks && regs[m].nicks[Lower(evs[i].nick)] == evs[i].id
  }

  /** In every run that claims only these nicks, whoever claimed one has it until giving it up. */
  ghost predicate ClaimsKept(nicks: iset<string>) {
    forall regs: seq<Reg>, evs: seq<Event>, i: nat, m: nat :: IsRunOf(nicks, regs, evs) ==> KeptFrom(regs, evs, i, m)
  }

  lemma NickStep(r: Reg, ev: Event, id: UserId)
    requires id in r.users && !GivesUp(r, ev, id) && Allowed(r, ev)
    ensures id in Next(r, ev).users && Next(r, ev).users[id].nick == r.users[id].nick
  {
  }

  lemma {:induction false} NickStays(regs: seq<Reg>, evs: seq<Event>, i: nat, m: nat)
    requires IsRun(regs, evs) && i < m < |regs| && evs[i].SetNick? && MayClaim(regs[i], evs[i].id, evs[i].nick)
    requires forall j :: i < j < m ==> !GivesUp(regs[j], evs[j], evs[i].id)
    ensures evs[i].id in regs[m].users && regs[m].users[evs[i].id].nick == evs[i].nick
  {
    if m > i + 1 {
      NickStays(regs, evs, i, m - 1);
      NickStep(regs[m - 1], evs[m - 1], evs[i].id);
    }
  }

  /** Two users; one claims the placeholder, and the other, still unnamed, leaves. */
  lemma PlaceholderIsLost(nicks: iset<string>) returns (regs: seq<Reg>, evs: seq<Event>)
    requires UNNAMED in nicks
    ensures IsRunOf(nicks, regs, evs) && !KeptFrom(regs, evs, 2, 4)
  {
    var a, b := Ip(0), Ip(1);
    var r0 := Reg(map[], map[], map[]);
    var r1 := Next(r0, Insert(a));
    var r2 := Next(r1, Insert(b));
    var r3 := Next(r2, SetNick(a, UNNAMED));
    var r4 := Next(r3, Remove(b, []));
    assert Lower(UNNAMED) == UNNAMED;
    assert r3.nicks == map[UNNAMED := a] && r3.users[b].nick == UNNAMED;
    assert Enumerates([], r3.users[b].channels);
    regs, evs := [r0, r1, r2, r3, r4], [Insert(a), Insert(b), SetNick(a, UNNAMED), Remove(b, [])];
  }

  /** Every nick claimed is kept, in every run that claims nicks of this set only, exactly if the
      placeholder is not in the set. */
  lemma ClaimsKeptExactly(nicks: iset<string>)
    ensures ClaimsKept(nicks) <==> UNNAMED !in nicks
  {
    if UNNAMED in nicks {
      var regs, evs := PlaceholderIsLost(nicks);
      assert !KeptFrom(regs, evs, 2, 4);
    } else {
      forall regs: seq<Reg>, evs: seq<Event>, i: nat, m: nat | IsRunOf(nicks, regs, evs) ensures KeptFrom(regs, evs, i, m) {
        assert IsRun(regs, evs);
        if i < m < |regs| && evs[i].SetNick? && MayClaim(regs[i], evs[i].id, evs[i].nick)
           && (forall j :: i < j < m ==> !GivesUp(regs[j], evs[j], evs[i].id)) {
          NickStays(regs, evs, i, m);
          RunKeeps(regs, evs, m);
        }
      }
    }
  }
}
