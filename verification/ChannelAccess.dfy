/** Who may read a channel or join its calls: the answer for one user and the answer for
    many at once. */
module ChannelAccess {
  import opened Wrappers

  type UserId = nat
  type RoleId = nat
  type ChannelId = nat

  datatype Kind = TextKind | VoiceKind | CategoryKind | Direct

  datatype Right = ReadChannel | ConnectVoice

  datatype Permission = Permission(readChannel: bool, connectVoice: bool)
  {
    predicate Grants(right: Right) {
      match right
      case ReadChannel => readChannel
      case ConnectVoice => connectVoice
    }
  }

  datatype Channel = Channel(kind: Kind, permissions: map<RoleId, Permission>)

  /** A block goes from the first user to the second. */
  datatype World = World(
    channels: map<ChannelId, Channel>,
    owner: Option<UserId>,
    roles: set<RoleId>,
    assignments: set<(UserId, RoleId)>,
    conversations: map<ChannelId, (UserId, UserId)>,
    blocks: set<(UserId, UserId)>)
  {
    /** Foreign keys: assigned roles exist, and every direct channel has its conversation. */
    ghost predicate Sound() {
      && (forall u, r :: (u, r) in assignments ==> r in roles)
      && forall c :: c in channels && channels[c].kind.Direct? ==> c in conversations
    }
  }

  datatype Error = ChannelNotFound | InvalidChannelType | PermissionDenied | NotFound

  predicate Blocked(w: World, a: UserId, b: UserId) {
    (a, b) in w.blocks || (b, a) in w.blocks
  }

  /** Some role of the user grants the right in the channel. */
  predicate ByRole(w: World, channel: Channel, user: UserId, right: Right) {
    exists r :: r in channel.permissions && (user, r) in w.assignments && channel.permissions[r].Grants(right)
  }

  /** The rule: members of an unblocked conversation; elsewhere the owner, everyone when no
      role has permissions, and the holders of a role with the right. */
  predicate May(w: World, id: ChannelId, user: UserId, right: Right)
    requires id in w.channels
  {
    var channel := w.channels[id];
    if channel.kind.Direct? then
      id in w.conversations &&
      var (low, high) := w.conversations[id];
      (user == low || user == high) && !Blocked(w, low, high)
    else w.owner == Some(user) || channel.permissions == map[] || ByRole(w, channel, user, right)
  }

  // ------------------------------------------------------------------- one user

  /** The roles of a user that exist. */
  function RolesOf(w: World, user: UserId): set<RoleId> {
    set r | r in w.roles && (user, r) in w.assignments
  }

  method UserHasChannelPermission(w: World, id: ChannelId, user: UserId, freeIfOpen: bool, right: Right)
    returns (allowed: bool)
    requires w.Sound() && id in w.channels
    ensures freeIfOpen ==> (allowed <==> May(w, id, user, right))
    ensures !freeIfOpen ==> (allowed <==> !w.channels[id].kind.Direct? &&
                                          (w.owner == Some(user) || ByRole(w, w.channels[id], user, right)))
  {
    var channel := w.channels[id];
    if channel.kind.Direct? {
      if !freeIfOpen || id !in w.conversations {
        return false;
      }
      var (low, high) := w.conversations[id];
      return (user == low || user == high) && !Blocked(w, low, high);
    }
    if w.owner == Some(user) {
      return true;
    }
    if freeIfOpen && |channel.permissions| == 0 {
      return true;
    }
    var roles := RolesOf(w, user);
    while roles != {}
      invariant forall r :: r in RolesOf(w, user) && r !in roles ==>
                  !(r in channel.permissions && channel.permissions[r].Grants(right))
      decreases roles
    {
      var role :| role in roles;
      roles := roles - {role};
      if role in channel.permissions && channel.permissions[role].Grants(right) {
        assert ByRole(w, channel, user, right);
        return true;
      }
    }
    assert forall r :: (user, r) in w.assignments ==> r in RolesOf(w, user);
    return false;
  }

  method CanReadChannel(w: World, id: ChannelId, user: UserId) returns (r: Result<(), Error>)
    requires w.Sound()
    ensures r == if id !in w.channels then Err(ChannelNotFound)
                 else if May(w, id, user, ReadChannel) then Ok(()) else Err(PermissionDenied)
    ensures id in w.channels && w.channels[id].kind.Direct? ==>
              var (low, high) := w.conversations[id];
              r.Ok? <==> user in {low, high} && (low, high) !in w.blocks && (high, low) !in w.blocks
    ensures id in w.channels && !w.channels[id].kind.Direct? ==>
              var permissions := w.channels[id].permissions;
              r.Ok? <==> || w.owner == Some(user) || permissions == map[]
                         || exists role :: role in permissions && (user, role) in w.assignments &&
                                           permissions[role].readChannel
  {
    if id !in w.channels {
      return Err(ChannelNotFound);
    }
    var allowed := UserHasChannelPermission(w, id, user, true, ReadChannel);
    return if allowed then Ok(()) else Err(PermissionDenied);
  }

  method CanConnectVoice(w: World, id: ChannelId, user: UserId) returns (r: Result<(), Error>)
    requires w.Sound()
    ensures r == if id !in w.channels then Err(ChannelNotFound)
                 else if !w.channels[id].kind.VoiceKind? then Err(InvalidChannelType)
                 else if May(w, id, user, ConnectVoice) then Ok(()) else Err(PermissionDenied)
    ensures id in w.channels && w.channels[id].kind.VoiceKind? ==>
              var permissions := w.channels[id].permissions;
              r.Ok? <==> || w.owner == Some(user) || permissions == map[]
                         || exists role :: role in permissions && (user, role) in w.assignments &&
                                           permissions[role].connectVoice
  {
    if id !in w.channels {
      return Err(ChannelNotFound);
    }
    if !w.channels[id].kind.VoiceKind? {
      return Err(InvalidChannelType);
    }
    var allowed := UserHasChannelPermission(w, id, user, true, ConnectVoice);
    return if allowed then Ok(()) else Err(PermissionDenied);
  }

  // ------------------------------------------------------------------ many users

  /** A batch answer is right about everybody it names and everybody it was asked about. */
  predicate Agrees(w: World, id: ChannelId, right: Right, users: seq<UserId>, allowed: set<UserId>)
    requires id in w.channels
  {
    && (forall u :: u in allowed ==> u in users || ByRole(w, w.channels[id], u, right))
    && (forall u :: u in allowed ==> May(w, id, u, right))
    && forall u :: u in users && May(w, id, u, right) ==> u in allowed
  }

  function UsersByRoles(w: World, roles: set<RoleId>): set<UserId> {
    set p | p in w.assignments && p.1 in roles :: p.0
  }

  function Among(users: seq<UserId>, chosen: set<UserId>): set<UserId> {
    set u | u in users && u in chosen
  }

  function RoleHolders(w: World, channel: Channel, right: Right): set<UserId> {
    set p | p in w.assignments && ByRole(w, channel, p.0, right) :: p.0
  }

  function Holders(w: World, channel: Channel, users: seq<UserId>, right: Right): set<UserId> {
    if channel.permissions == map[] then set u | u in users
    else (if w.owner.Some? then Among(users, {w.owner.value}) else {}) + RoleHolders(w, channel, right)
  }

  /** The loop that marks the requested users found in a set. */
  method MarkAmong(users: seq<UserId>, chosen: set<UserId>) returns (allowed: set<UserId>)
    ensures allowed == Among(users, chosen)
  {
    allowed := {};
    for n := 0 to |users|
      invariant allowed == Among(users[..n], chosen)
    {
      if users[n] in chosen {
        allowed := allowed + {users[n]};
      }
    }
    assert users[..|users|] == users;
  }

  method GrantingRoles(channel: Channel, right: Right) returns (granting: set<RoleId>)
    ensures granting == set r | r in channel.permissions && channel.permissions[r].Grants(right)
  {
    var keys := channel.permissions.Keys;
    granting := {};
    while keys != {}
      invariant keys <= channel.permissions.Keys
      invariant granting == set r | r in channel.permissions && r !in keys && channel.permissions[r].Grants(right)
      decreases keys
    {
      var role :| role in keys;
      keys := keys - {role};
      if channel.permissions[role].Grants(right) {
        granting := granting + {role};
      }
    }
  }

  /** The part both batch operations share. */
  method CollectHolders(w: World, channel: Channel, users: seq<UserId>, right: Right) returns (allowed: set<UserId>)
    ensures allowed == Holders(w, channel, users, right)
  {
    hide RoleHolders, ByRole, UsersByRoles, Among;
    allowed := {};
    if |channel.permissions| == 0 {
      for n := 0 to |users|
        invariant allowed == set u | u in users[..n]
      {
        allowed := allowed + {users[n]};
      }
      assert users[..|users|] == users;
      return allowed;
    }
    if w.owner.Some? {
      allowed := MarkAmong(users, {w.owner.value});
    }
    var granting := GrantingRoles(channel, right);
    HoldersAreGranted(w, channel, right, granting);
    if |granting| == 0 {
      NoHolders(w);
      return allowed;
    }
    allowed := allowed + UsersByRoles(w, granting);
  }

  lemma NoHolders(w: World)
    ensures UsersByRoles(w, {}) == {}
  {
  }

  lemma HolderHasRole(w: World, channel: Channel, right: Right, u: UserId)
    ensures u in RoleHolders(w, channel, right) <==> ByRole(w, channel, u, right)
  {
    if ByRole(w, channel, u, right) {
      var r :| r in channel.permissions && (u, r) in w.assignments && channel.permissions[r].Grants(right);
      assert (u, r).0 == u;
    }
  }

  lemma HoldersAreGranted(w: World, channel: Channel, right: Right, granting: set<RoleId>)
    requires granting == set r | r in channel.permissions && channel.permissions[r].Grants(right)
    ensures UsersByRoles(w, granting) == RoleHolders(w, channel, right)
  {
    forall u ensures u in UsersByRoles(w, granting) <==> u in RoleHolders(w, channel, right) {
      HolderHasRole(w, channel, right, u);
      if ByRole(w, channel, u, right) {
        var r :| r in channel.permissions && (u, r) in w.assignments && channel.permissions[r].Grants(right);
        assert (u, r).0 == u && (u, r).1 in granting;
      }
    }
  }

  lemma HoldersAgree(w: World, id: ChannelId, users: seq<UserId>, right: Right)
    requires id in w.channels && !w.channels[id].kind.Direct?
    ensures Agrees(w, id, right, users, Holders(w, w.channels[id], users, right))
  {
    forall u ensures u in RoleHolders(w, w.channels[id], right) <==> ByRole(w, w.channels[id], u, right) {
      HolderHasRole(w, w.channels[id], right, u);
    }
    hide RoleHolders, ByRole;
  }

  function Members(w: World, id: ChannelId): set<UserId>
    requires id in w.conversations
  {
    var (low, high) := w.conversations[id];
    if Blocked(w, low, high) then {} else {low, high}
  }

  method DirectConversationReaders(w: World, id: ChannelId, users: seq<UserId>) returns (r: Result<set<UserId>, Error>)
    ensures r == if id !in w.conversations then Err(NotFound) else Ok(Among(users, Members(w, id)))
    ensures r.Ok? <==> id in w.conversations
    ensures r.Ok? ==>
              var (low, high) := w.conversations[id];
              forall u :: u in r.value <==>
                u in users && u in {low, high} && (low, high) !in w.blocks && (high, low) !in w.blocks
  {
    if id !in w.conversations {
      return Err(NotFound);
    }
    var (low, high) := w.conversations[id];
    if Blocked(w, low, high) {
      assert Among(users, {}) == {};
      return Ok({});
    }
    var allowed := MarkAmong(users, {low, high});
    return Ok(allowed);
  }

  /** For every user asked about, the batch answer is the answer for that user alone. An
      empty request is answered before the channel is looked up. */
  method ChannelReaders(w: World, id: ChannelId, users: seq<UserId>) returns (r: Result<set<UserId>, Error>)
    requires w.Sound()
    ensures users == [] ==> r == Ok({})
    ensures users != [] && id !in w.channels ==> r == Err(ChannelNotFound)
    ensures users != [] && id in w.channels ==> r.Ok? && Agrees(w, id, ReadChannel, users, r.value)
  {
    if |users| == 0 {
      return Ok({});
    }
    if id !in w.channels {
      return Err(ChannelNotFound);
    }
    if w.channels[id].kind.Direct? {
      r := DirectConversationReaders(w, id, users);
      return r;
    }
    hide Agrees, Holders, May;
    var allowed := CollectHolders(w, w.channels[id], users, ReadChannel);
    HoldersAgree(w, id, users, ReadChannel);
    return Ok(allowed);
  }

  method VoiceConnectors(w: World, id: ChannelId, users: seq<UserId>) returns (r: Result<set<UserId>, Error>)
    requires w.Sound()
    ensures users == [] ==> r == Ok({})
    ensures users != [] && id !in w.channels ==> r == Err(ChannelNotFound)
    ensures users != [] && id in w.channels && !w.channels[id].kind.VoiceKind? ==> r == Err(InvalidChannelType)
    ensures users != [] && id in w.channels && w.channels[id].kind.VoiceKind? ==>
              r.Ok? && Agrees(w, id, ConnectVoice, users, r.value)
  {
    if |users| == 0 {
      return Ok({});
    }
    if id !in w.channels {
      return Err(ChannelNotFound);
    }
    if !w.channels[id].kind.VoiceKind? {
      return Err(InvalidChannelType);
    }
    hide Agrees, Holders, May;
    var allowed := CollectHolders(w, w.channels[id], users, ConnectVoice);
    HoldersAgree(w, id, users, ConnectVoice);
    return Ok(allowed);
  }

  /** The two kinds of question, asked of a batch and of one of its users. */
  method BatchAndSingleAgree(w: World, id: ChannelId, users: seq<UserId>, user: UserId)
    returns (readers: Result<set<UserId>, Error>, reader: Result<(), Error>,
             connectors: Result<set<UserId>, Error>, connector: Result<(), Error>)
    requires w.Sound() && user in users
    ensures if id !in w.channels then readers == Err(ChannelNotFound) && reader == Err(ChannelNotFound)
            else readers.Ok? && (user in readers.value <==> reader.Ok?)
    ensures if connectors.Err? then connector == Err(connectors.error) else user in connectors.value <==> connector.Ok?
  {
    readers := ChannelReaders(w, id, users);
    reader := CanReadChannel(w, id, user);
    connectors := VoiceConnectors(w, id, users);
    connector := CanConnectVoice(w, id, user);
  }
}
