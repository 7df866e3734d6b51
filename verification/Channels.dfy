/** Channel positions: creation, moves and deletion, and the stress client's local copy. */
module Channels {
  import opened Sizes
  import opened Wrappers

  type Id = nat

  datatype Channel = Channel(dm: bool, position: int)

  type Table = map<Id, Channel>

  datatype Error = NotFound | PositionConflict | InvalidPosition | InvalidInput

  /** Channels that are not direct messages. */
  function Listed(t: Table): set<Id> {
    set id | id in t && !t[id].dm
  }

  function Count(t: Table): nat {
    |Listed(t)|
  }

  /** The largest position of any channel, or 0. */
  ghost function MaxPosition(t: Table): (m: int)
    ensures m >= 0 && forall id :: id in t ==> t[id].position <= m
    ensures m == 0 || exists id :: id in t && t[id].position == m
    decreases |t|
  {
    if t == map[] then 0
    else
      var id :| id in t;
      assert |t - {id}| < |t| by { Smaller(t, id); }
      var rest := MaxPosition(t - {id});
      assert forall x :: x in t && x != id ==> x in t - {id} && (t - {id})[x] == t[x];
      if t[id].position > rest then t[id].position else rest
  }

  lemma Smaller(t: Table, id: Id)
    requires id in t
    ensures |t - {id}| < |t|
  {
    assert (t - {id}).Keys == t.Keys - {id};
  }

  /** What a move does to the other positions: close the gap left at `from`, open one at
      `to`. */
  function Shifted(p: int, from: int, to: int): int {
    if to > from && from < p <= to then p - 1
    else if to < from && to <= p < from then p + 1
    else p
  }

  function Moved(t: Table, id: Id, from: int, to: int): Table {
    map x | x in t ::
      if x == id then t[x].(position := to)
      else if t[x].dm then t[x]
      else t[x].(position := Shifted(t[x].position, from, to))
  }

  /** Positions are distinct and start at 1; direct messages have position 0. */
  predicate Inv(t: Table) {
    && (forall id :: id in t ==> if t[id].dm then t[id].position == 0 else t[id].position >= 1)
    && forall a, b :: a in t && b in t && a != b && !t[a].dm && !t[b].dm ==> t[a].position != t[b].position
  }

  class ChannelTable {
    var channels: Table

    constructor ()
      ensures channels == map[]
    {
      channels := map[];
    }

    method CreateChannel(id: Id) returns (position: int)
      requires id !in channels
      modifies this
      ensures position == MaxPosition(old(channels)) + 1
      ensures channels == old(channels)[id := Channel(false, position)]
      ensures old(Inv(channels)) ==> Inv(channels)
    {
      var max := 0;
      var ids := channels.Keys;
      while ids != {}
        invariant ids <= channels.Keys && max >= 0
        invariant forall x :: x in channels && x !in ids ==> channels[x].position <= max
        invariant max == 0 || exists x :: x in channels && channels[x].position == max
        decreases ids
      {
        var x :| x in ids;
        ids := ids - {x};
        if channels[x].position > max {
          max := channels[x].position;
        }
      }
      position := max + 1;
      channels := channels[id := Channel(false, position)];
    }

    method CreateDirectMessage(id: Id)
      requires id !in channels
      modifies this
      ensures channels == old(channels)[id := Channel(true, 0)]
      ensures old(Inv(channels)) ==> Inv(channels)
    {
      channels := channels[id := Channel(true, 0)];
    }

    /** UPDATE channels SET position = position + delta, on a range of listed channels. */
    method ShiftRange(low: int, high: int, delta: int)
      modifies this
      ensures channels == map x | x in old(channels) ::
                if !old(channels)[x].dm && low <= old(channels)[x].position <= high
                then old(channels)[x].(position := old(channels)[x].position + delta) else old(channels)[x]
    {
      channels := map x | x in channels ::
        if !channels[x].dm && low <= channels[x].position <= high
        then channels[x].(position := channels[x].position + delta) else channels[x];
    }

    /** The storage operation. */
    method ChangePosition(id: Id, oldPosition: int, newPosition: int) returns (r: Result<Channel, Error>)
      modifies this
      ensures r.Ok? <==> id in old(channels) && old(channels)[id].position == oldPosition
                         && 1 <= newPosition <= Count(old(channels))
      ensures r.Err? ==> channels == old(channels)
      ensures r.Err? ==> r.error == if id !in channels then NotFound
                                    else if channels[id].position != oldPosition then PositionConflict
                                    else InvalidPosition
      ensures r.Ok? ==> channels == Moved(old(channels), id, oldPosition, newPosition) && r.value == channels[id]
    {
      if id !in channels {
        return Err(NotFound);
      }
      if channels[id].position != oldPosition {
        return Err(PositionConflict);
      }
      var count := Count(channels);
      if newPosition < 1 || newPosition > count {
        return Err(InvalidPosition);
      }
      if newPosition > oldPosition {
        ShiftRange(oldPosition + 1, newPosition, -1);
      } else if newPosition < oldPosition {
        ShiftRange(newPosition, oldPosition - 1, 1);
      }
      channels := channels[id := channels[id].(position := newPosition)];
      assert channels == Moved(old(channels), id, oldPosition, newPosition);
      return Ok(channels[id]);
    }

    /** The service operation: direct messages cannot be moved. */
    method ChangeChannelPosition(id: Id, oldPosition: int, newPosition: int) returns (r: Result<Channel, Error>)
      requires Inv(channels)
      modifies this
      ensures Inv(channels)
      ensures r.Ok? <==> id in old(channels) && !old(channels)[id].dm && old(channels)[id].position == oldPosition
                         && 1 <= newPosition <= Count(old(channels))
      ensures r.Ok? ==> channels == Moved(old(channels), id, oldPosition, newPosition) && r.value == channels[id]
      ensures r.Ok? ==> channels.Keys == old(channels).Keys && channels[id] == Channel(false, newPosition)
      ensures r.Ok? ==> forall x :: x in channels && x != id ==>
                var before := old(channels)[x];
                channels[x] == if !before.dm && oldPosition < before.position <= newPosition
                               then Channel(false, before.position - 1)
                               else if !before.dm && newPosition <= before.position < oldPosition
                               then Channel(false, before.position + 1) else before
      ensures r.Err? ==> channels == old(channels)
      ensures r.Err? ==> r.error == if oldPosition < 1 || newPosition < 1 then InvalidInput
                                    else if id !in channels || channels[id].dm then NotFound
                                    else if channels[id].position != oldPosition then PositionConflict
                                    else InvalidInput
    {
      if oldPosition < 1 || newPosition < 1 {
        return Err(InvalidInput);
      }
      if id !in channels || channels[id].dm {
        return Err(NotFound);
      }
      r := ChangePosition(id, oldPosition, newPosition);
      if r.Ok? {
        MoveKeepsInv(old(channels), id, newPosition);
      } else if r.error.InvalidPosition? {
        r := Err(InvalidInput);
      }
    }

    method DeleteChannel(id: Id) returns (r: Result<(), Error>)
      modifies this
      ensures r == if id in old(channels) then Ok(()) else Err(NotFound)
      ensures channels == old(channels) - {id}
      ensures old(Inv(channels)) ==> Inv(channels)
    {
      r := if id in channels then Ok(()) else Err(NotFound);
      channels := channels - {id};
    }
  }

  // --------------------------------------------------------------- any sequence

  datatype Op = Create(id: Id) | CreateDm(id: Id) | Move(id: Id, from: int, to: int) | Delete(id: Id)

  ghost function Apply(t: Table, op: Op): Table {
    match op
    case Create(id) => if id in t then t else t[id := Channel(false, MaxPosition(t) + 1)]
    case CreateDm(id) => if id in t then t else t[id := Channel(true, 0)]
    case Move(id, from, to) =>
      if id in t && !t[id].dm && t[id].position == from && 1 <= to <= Count(t) then Moved(t, id, from, to) else t
    case Delete(id) => t - {id}
  }

  ghost function Run(t: Table, ops: seq<Op>): Table
    decreases |ops|
  {
    if ops == [] then t else Run(Apply(t, ops[0]), ops[1..])
  }

  lemma MoveKeepsInv(t: Table, id: Id, to: int)
    requires Inv(t) && id in t && !t[id].dm && 1 <= to
    ensures Inv(Moved(t, id, t[id].position, to))
  {
    var from := t[id].position;
    forall x | x in t && !t[x].dm && x != id
      ensures Shifted(t[x].position, from, to) != to && Shifted(t[x].position, from, to) >= 1 {
    }
    forall a, b | a in t && b in t && a != b && !t[a].dm && !t[b].dm && a != id && b != id
      ensures Shifted(t[a].position, from, to) != Shifted(t[b].position, from, to) {
      assert t[a].position != from && t[b].position != from;
    }
  }

  /** Whatever is created, moved and deleted, positions stay distinct and at least 1. */
  lemma {:induction false} PositionsStayDistinct(ops: seq<Op>)
    ensures Inv(Run(map[], ops))
  {
    RunKeepsInv(map[], ops);
  }

  lemma {:induction false} RunKeepsInv(t: Table, ops: seq<Op>)
    requires Inv(t)
    ensures Inv(Run(t, ops))
    decreases |ops|
  {
    hide Inv, Apply;
    if ops != [] {
      ApplyKeepsInv(t, ops[0]);
      RunKeepsInv(Apply(t, ops[0]), ops[1..]);
    }
  }

  lemma ApplyKeepsInv(t: Table, op: Op)
    requires Inv(t)
    ensures Inv(Apply(t, op))
  {
    if op.Move? && op.id in t && !t[op.id].dm && 1 <= op.to {
      MoveKeepsInv(t, op.id, op.to);
    }
  }

  /** A move never changes the order of the other channels. */
  lemma MoveKeepsOrder(t: Table, id: Id, to: int, a: Id, b: Id)
    requires Inv(t) && id in t && !t[id].dm && a in t && b in t && a != id && b != id && !t[a].dm && !t[b].dm
    ensures var u := Moved(t, id, t[id].position, to);
            u[a].position < u[b].position <==> t[a].position < t[b].position
  {
    assert t[a].position != t[id].position && t[b].position != t[id].position;
    assert a != b ==> t[a].position != t[b].position;
  }

  /** Moving back undoes a move, gaps or not; the move back is accepted exactly when the
      old position is within the number of channels. */
  lemma MoveIsUndone(t: Table, id: Id, to: int)
    requires Inv(t) && id in t && !t[id].dm && 1 <= to <= Count(t)
    ensures var from := t[id].position; var u := Moved(t, id, from, to);
            && Moved(u, id, to, from) == t
            && (Apply(u, Move(id, to, from)) == t <==> from <= Count(t))
  {
    var from := t[id].position;
    var u := Moved(t, id, from, to);
    assert Listed(u) == Listed(t);
    forall x | x in t && !t[x].dm && x != id
      ensures Shifted(Shifted(t[x].position, from, to), to, from) == t[x].position {
      assert t[x].position != from;
    }
    assert Moved(u, id, to, from) == t;
    if from > Count(t) {
      assert u[id] != t[id];
    }
  }

  // ------------------------------------------------------------ without gaps

  /** The listed channels in order, at positions 1, 2, 3, and so on. */
  ghost predicate InOrder(t: Table, ids: seq<Id>) {
    && (forall k :: 0 <= k < |ids| ==> ids[k] in t && !t[ids[k]].dm && t[ids[k]].position == k + 1)
    && forall id :: id in t && !t[id].dm ==> 1 <= t[id].position <= |ids| && ids[t[id].position - 1] == id
  }

  function Without(ids: seq<Id>, k: nat): seq<Id>
    requires k < |ids|
  {
    ids[..k] + ids[k + 1..]
  }

  function InsertedAt(ids: seq<Id>, k: nat, id: Id): seq<Id>
    requires k <= |ids|
  {
    ids[..k] + [id] + ids[k..]
  }

  lemma MovedAt(ids: seq<Id>, from: nat, to: nat, k: nat)
    requires 1 <= from <= |ids| && 1 <= to <= |ids| && k < |ids|
    ensures var moved := InsertedAt(Without(ids, from - 1), to - 1, ids[from - 1]);
            && |moved| == |ids|
            && moved[k] == if k == to - 1 then ids[from - 1] else ids[Shifted(k + 1, to, from) - 1]
  {
  }

  /** Without gaps a move is: take the channel out of the list and put it back at the new
      place. Positions stay 1 to n. */
  lemma MoveIsRemoveThenInsert(t: Table, ids: seq<Id>, from: nat, to: nat)
    requires InOrder(t, ids) && 1 <= from <= |ids| && 1 <= to <= |ids|
    ensures InOrder(Moved(t, ids[from - 1], from, to), InsertedAt(Without(ids, from - 1), to - 1, ids[from - 1]))
  {
    hide InsertedAt;
    var id := ids[from - 1];
    var u, moved := Moved(t, id, from, to), InsertedAt(Without(ids, from - 1), to - 1, id);
    MovedAt(ids, from, to, 0);
    forall k: nat | k < |moved| ensures moved[k] in u && !u[moved[k]].dm && u[moved[k]].position == k + 1 {
      MovedAt(ids, from, to, k);
    }
    forall x | x in u && !u[x].dm ensures 1 <= u[x].position <= |moved| && moved[u[x].position - 1] == x {
      assert x == ids[t[x].position - 1];
      MovedAt(ids, from, to, u[x].position - 1);
    }
  }

  lemma CreateAppends(t: Table, ids: seq<Id>, id: Id)
    requires InOrder(t, ids) && id !in t && forall x :: x in t && t[x].dm ==> t[x].position == 0
    ensures InOrder(Apply(t, Create(id)), ids + [id])
  {
    assert MaxPosition(t) == |ids| by {
      assert |ids| > 0 ==> t[ids[|ids| - 1]].position == |ids|;
    }
  }

  lemma InOrderCount(t: Table, ids: seq<Id>)
    requires InOrder(t, ids)
    ensures Count(t) == |ids|
  {
    DistinctSize(ids);
    assert Listed(t) == Elements(ids);
  }

  /** Deletion closes no gap: positions stay 1 to n exactly when the last channel goes. */
  lemma DeleteLeavesGap(t: Table, ids: seq<Id>, k: nat)
    requires InOrder(t, ids) && k < |ids|
    ensures (exists left :: InOrder(Apply(t, Delete(ids[k])), left)) <==> k == |ids| - 1
  {
    var u := t - {ids[k]};
    if k == |ids| - 1 {
      forall id | id in u && !u[id].dm ensures u[id].position <= k && ids[..k][u[id].position - 1] == id {
        assert ids[t[id].position - 1] == id && id != ids[k];
      }
      assert forall j :: 0 <= j < k ==> ids[j] != ids[k];
      assert InOrder(Apply(t, Delete(ids[k])), ids[..k]);
    } else {
      InOrderCount(t, ids);
      assert Listed(u) == Listed(t) - {ids[k]};
      assert ids[|ids| - 1] in u && u[ids[|ids| - 1]].position == |ids|;
      forall left | InOrder(u, left) ensures false {
        InOrderCount(u, left);
      }
    }
  }

  // ------------------------------------------------------- the client's local copy

  /** The client knows the positions of some of the listed channels, all correctly. */
  predicate Mirrors(pos: map<Id, int>, t: Table) {
    forall id :: id in pos ==> id in t && !t[id].dm && pos[id] == t[id].position
  }

  function Followed(pos: map<Id, int>, id: Id, from: int, to: int): map<Id, int> {
    map x | x in pos :: if x == id then to else Shifted(pos[x], from, to)
  }

  /** The position the seeder asks for: a random one, or the next when that is the current
      one. */
  function Picked(pick: nat, from: int, n: nat): (to: int)
    requires pick < n
    ensures 1 <= to <= n
  {
    if pick + 1 == from then from % n + 1 else pick + 1
  }

  class SeedClient {
    var pos: map<Id, int>

    constructor (pos: map<Id, int>)
      ensures this.pos == pos
    {
      this.pos := pos;
    }

    /** Follows a move that the server accepted. */
    method Follow(id: Id, from: int, to: int)
      requires id in pos
      modifies this
      ensures pos == Followed(old(pos), id, from, to)
    {
      var keys := pos.Keys;
      while keys != {}
        invariant keys <= pos.Keys == old(pos).Keys
        invariant forall x :: x in pos ==>
                    pos[x] == if x in keys || x == id then old(pos)[x] else Shifted(old(pos)[x], from, to)
        decreases keys
      {
        var x :| x in keys;
        keys := keys - {x};
        var p := pos[x];
        if to > from {
          if x != id && p > from && p <= to {
            pos := pos[x := p - 1];
          }
        } else if x != id && p >= to && p < from {
          pos := pos[x := p + 1];
        }
      }
      pos := pos[id := to];
    }

    /** One repositioning of the seeder: the position it picks is accepted, and its copy is
        right afterwards without asking again. */
    method Reposition(server: ChannelTable, id: Id, pick: nat)
      requires Inv(server.channels) && Mirrors(pos, server.channels) && id in pos && pick < |pos|
      modifies this, server
      ensures Inv(server.channels) && Mirrors(pos, server.channels) && pos.Keys == old(pos.Keys)
      ensures server.channels.Keys == old(server.channels.Keys)
      ensures pos[id] == Picked(pick, old(pos[id]), old(|pos|))
    {
      var n, from, to := |pos|, pos[id], 1 + pick;
      if to == from {
        to := (to % n) + 1;
      }
      assert to == Picked(pick, from, n);
      hide Inv, Mirrors, Moved, Followed, Count, Picked;
      MirrorFollows(pos, server.channels, id, to);
      var r := server.ChangeChannelPosition(id, from, to);
      Follow(id, from, to);
      assert r.Ok?;
    }
  }

  lemma MirrorFollows(pos: map<Id, int>, t: Table, id: Id, to: int)
    requires Mirrors(pos, t) && id in pos
    ensures id in t && !t[id].dm && t[id].position == pos[id] && |pos| <= Count(t)
    ensures var followed := Followed(pos, id, pos[id], to);
            Mirrors(followed, Moved(t, id, pos[id], to)) && followed.Keys == pos.Keys && followed[id] == to
    ensures Moved(t, id, pos[id], to).Keys == t.Keys
  {
    ListedAtLeast(pos, t);
  }

  lemma ListedAtLeast(pos: map<Id, int>, t: Table)
    requires Mirrors(pos, t)
    ensures |pos| <= Count(t)
  {
    SubsetSize(pos.Keys, Listed(t));
  }
}
