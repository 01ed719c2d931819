/** The class `ClientDataManager`, updated in place.  Each method is proved to carry out the
    operation of the same name in module Registry and to keep the maps consistent. */
module ClientDataManagers {
  import opened Common
  import opened Registry
  import R = Registry
  import opened RegistryLaws

  class ClientDataManager {
    var nextId: int
    var clientsId: map<Bytes, int>
    var clientsName: map<string, int>
    var clientsData: map<int, ClientData>
    var clientsQueue: map<int, Queue>
    var inbox: map<Queue, nat>

    function View(): Registry
      reads this
    {
      Registry(nextId, clientsId, clientsName, clientsData, clientsQueue, inbox)
    }

    ghost predicate Valid()
      reads this
    {
      Consistent(View())
    }

    constructor ()
      ensures Valid() && View() == EMPTY_REGISTRY
    {
      nextId := 1;
      clientsId, clientsName, clientsData, clientsQueue, inbox := map[], map[], map[], map[], map[];
    }

    method AddClient(publicKey: Bytes) returns (id: int)
      modifies this
      ensures (View(), id) == R.AddClient(old(View()), publicKey)
    {
      if publicKey !in clientsId {
        clientsId := clientsId[publicKey := nextId];
      }
      if nextId !in clientsData {
        clientsData := clientsData[nextId := ClientData(publicKey, "", [], [], [])];
      }
      id := nextId;
      nextId := if nextId == MAX_SHORT then -0x8000 else nextId + 1;
    }

    method RegisterClient(publicKey: Bytes, queue: Queue) returns (id: int)
      requires Valid()
      modifies this
      ensures (View(), id) == R.RegisterClient(old(View()), publicKey, queue)
      ensures id > 0 <==> publicKey in old(clientsId) || old(nextId) > 0
      ensures id > 0 ==> Valid()
    {
      if publicKey in clientsId || nextId > 0 {
        RegisterKeepsConsistency(View(), publicKey, queue);
      }
      RegistrationIdentity(View(), publicKey, queue);
      if publicKey in clientsId {
        id := clientsId[publicKey];
      } else {
        id := AddClient(publicKey);
      }
      if id !in clientsQueue {
        clientsQueue := clientsQueue[id := queue];
      }
    }

    method Unregister(id: int)
      requires Valid()
      modifies this`clientsQueue
      ensures Valid() && View() == R.Unregister(old(View()), id)
    {
      UnregisterKeepsConsistency(View(), id);
      clientsQueue := clientsQueue - {id};
    }

    method PostUpdate(id: int)
      modifies this`inbox
      ensures View() == Notify(old(View()), id)
    {
      if id in clientsQueue {
        var queue := clientsQueue[id];
        inbox := inbox[queue := (if queue in inbox then inbox[queue] else 0) + 1];
      }
    }

    method AddFollower(myId: int, followerId: int)
      requires Valid() && myId in clientsData && followerId in clientsData
      modifies this
      ensures Valid() && View() == R.AddFollower(old(View()), myId, followerId)
    {
      AddFollowerKeepsConsistency(View(), myId, followerId);
      clientsData := clientsData[myId := clientsData[myId].AddFollower(followerId)];
      clientsData := clientsData[followerId := clientsData[followerId].StartFollowing(myId)];
      PostUpdate(followerId);
    }

    method RemoveFollower(myId: int, followerId: int)
      requires Valid() && myId in clientsData && followerId in clientsData
      modifies this
      ensures Valid() && View() == R.RemoveFollower(old(View()), myId, followerId)
    {
      RemoveFollowerIsStopFollowing(View(), myId, followerId);
      StopFollowingKeepsConsistency(View(), followerId, myId);
      clientsData := clientsData[myId := clientsData[myId].RemoveFollower(followerId)];
      clientsData := clientsData[followerId := clientsData[followerId].StopFollowing(myId)];
    }

    method StopFollowing(myId: int, followingId: int)
      requires Valid() && myId in clientsData && followingId in clientsData
      modifies this
      ensures Valid() && View() == R.StopFollowing(old(View()), myId, followingId)
    {
      StopFollowingKeepsConsistency(View(), myId, followingId);
      clientsData := clientsData[myId := clientsData[myId].StopFollowing(followingId)];
      clientsData := clientsData[followingId := clientsData[followingId].RemoveFollower(myId)];
    }

    method NotifyFollowers(id: int)
      requires id in clientsData
      modifies this`inbox
      ensures View() == NotifyAll(old(View()), clientsData[id].followers)
    {
      var followers := clientsData[id].followers;
      var i := 0;
      while i < |followers|
        invariant 0 <= i <= |followers|
        invariant NotifyAll(View(), followers[i..]) == NotifyAll(old(View()), followers)
      {
        assert followers[i..][1..] == followers[i + 1..];
        PostUpdate(followers[i]);
        i := i + 1;
      }
    }

    method AddPosition(myId: int, latitude: real, longitude: real, time: int)
      requires Valid() && myId in clientsData
      modifies this
      ensures Valid() && View() == R.AddPosition(old(View()), myId, latitude, longitude, time)
    {
      AddPositionKeepsConsistency(View(), myId, latitude, longitude, time);
      clientsData := clientsData[myId := clientsData[myId].AddPosition(latitude, longitude, time)];
      NotifyFollowers(myId);
    }

    /** The inner loop of `getNewPositions`: the iterator `it` starts at the last position and is
        never moved. */
    static method CopyPositions(w: Watcher, d: ClientData) returns (copied: seq<Position>, newTime: int)
      requires d.positions != [] && d.name != ""
      ensures copied == Emitted(w, d)
      ensures Max(w.time, newTime) == Advanced(w, d).time
    {
      copied, newTime := [], 0;
      var it := |d.positions| - 1;
      while |copied| < 3
        invariant it == |d.positions| - 1 && |copied| <= 3
        invariant copied != [] ==> d.positions[it].time > w.time && |d.positions| > 1
        invariant forall i :: 0 <= i < |copied| ==> copied[i] == d.positions[it]
        invariant newTime == if copied == [] then 0 else Max(0, d.positions[it].time)
        decreases 3 - |copied|
      {
        if d.positions[it].time > w.time {
          copied := copied + [d.positions[it]];
          newTime := Max(newTime, d.positions[it].time);
        } else {
          break;
        }
        if it == 0 {
          break;
        }
      }
    }

    /** The first i watchers have been advanced, and their positions collected. */
    static ghost predicate AdvancedUpTo(ws: seq<Watcher>, data: Clients, i: nat, following: seq<Watcher>,
                                        positions: seq<(int, Position)>)
      requires Known(ws, data)
    {
      && i <= |ws| == |following|
      && (forall j :: 0 <= j < i ==> following[j] == Advanced(ws[j], data[ws[j].id]))
      && (forall j :: i <= j < |ws| ==> following[j] == ws[j])
      && Known(ws[i..], data) && positions + PositionsFor(ws[i..], data) == PositionsFor(ws, data)
    }

    static lemma AdvancesOne(ws: seq<Watcher>, data: Clients, i: nat, following: seq<Watcher>,
                             positions: seq<(int, Position)>)
      requires Known(ws, data) && AdvancedUpTo(ws, data, i, following, positions) && i < |ws|
      ensures var w, d := ws[i], data[ws[i].id];
        AdvancedUpTo(ws, data, i + 1, following[i := Advanced(w, d)], positions + Tag(w.id, Emitted(w, d)))
    {
      var w, rest := ws[i], PositionsFor(ws[i + 1..], data);
      assert ws[i..][0] == w && ws[i..][1..] == ws[i + 1..];
      var tagged := Tag(w.id, Emitted(w, data[w.id]));
      assert (positions + tagged) + rest == positions + (tagged + rest);
    }

    /** The loop of `getNewPositions` over the watchers of one client. */
    static method AdvanceWatchers(ws: seq<Watcher>, data: Clients)
      returns (following: seq<Watcher>, positions: seq<(int, Position)>)
      requires Known(ws, data)
      ensures following == AdvancedAll(ws, data) && positions == PositionsFor(ws, data)
    {
      following, positions := ws, [];
      var i := 0;
      assert ws[0..] == ws && [] + PositionsFor(ws, data) == PositionsFor(ws, data);
      while i < |following|
        invariant 0 <= i && AdvancedUpTo(ws, data, i, following, positions)
        decreases |ws| - i
      {
        var w := following[i];
        var d := data[w.id];
        AdvancesOne(ws, data, i, following, positions);
        if d.positions != [] && d.name != "" {
          var copied, newTime := CopyPositions(w, d);
          following := following[i := w.(time := Max(w.time, newTime))];
          positions := positions + Tag(w.id, copied);
        } else {
          assert positions + [] == positions && following[i := w] == following;
        }
        i := i + 1;
      }
      assert ws[i..] == [] && positions + [] == positions;
    }

    method GetNewPositions(id: int) returns (positions: seq<(int, Position)>)
      requires Valid() && id in clientsData
      modifies this
      ensures Known(old(View()).data[id].following, old(View()).data)
      ensures Valid() && (View(), positions) == R.GetNewPositions(old(View()), id)
    {
      GetNewPositionsKeepsConsistency(View(), id);
      var following;
      following, positions := AdvanceWatchers(clientsData[id].following, clientsData);
      clientsData := clientsData[id := clientsData[id].(following := following)];
    }

    method GetNameId(name: string) returns (id: int)
      requires Valid()
      ensures id == R.GetNameId(View(), name)
      ensures name != "" ==> id == Scan(View(), name, 1)
    {
      if name != "" {
        NameIndexIsScan(View(), name);
      }
      id := if name in clientsName then clientsName[name] else 0;
    }

    method SetName(myId: int, name: string) returns (ok: bool)
      requires Valid() && myId in clientsData
      modifies this
      ensures Valid() && (View(), ok) == R.SetName(old(View()), myId, name)
      ensures myId in clientsData && (ok <==> clientsData[myId].name == name)
    {
      SetNameKeepsConsistency(View(), myId, name);
      SetNameAnswer(View(), myId, name);
      if name !in clientsName {
        if clientsData[myId].name != "" {
          clientsName := clientsName - {clientsData[myId].name};
        }
        clientsName := clientsName[name := myId];
        clientsData := clientsData[myId := clientsData[myId].SetName(name)];
        NotifyFollowers(myId);
        ok := true;
      } else {
        ok := clientsData[myId].name == name;
      }
    }

    /** The loop of `getNewNames` over the watchers of one client. */
    static method RenameWatchers(ws: seq<Watcher>, data: Clients)
      returns (following: seq<Watcher>, names: seq<(int, string)>)
      requires Known(ws, data)
      ensures following == RenamedAll(ws, data) && names == NamesFor(ws, data)
    {
      following, names := ws, [];
      var i := 0;
      while i < |following|
        invariant 0 <= i <= |following| == |ws|
        invariant forall j :: 0 <= j < i ==> following[j] == Renamed(ws[j], data[ws[j].id])
        invariant forall j :: i <= j < |ws| ==> following[j] == ws[j]
        invariant Known(ws[i..], data)
        invariant names + NamesFor(ws[i..], data) == NamesFor(ws, data)
      {
        var w := following[i];
        ghost var rest := NamesFor(ws[i + 1..], data);
        assert ws[i..][0] == w && ws[i..][1..] == ws[i + 1..];
        var d := data[w.id];
        assert (names + [(w.id, d.name)]) + rest == names + ([(w.id, d.name)] + rest);
        assert [] + rest == rest;
        if d.name != "" && d.name != w.name {
          following := following[i := w.(name := d.name)];
          names := names + [(w.id, d.name)];
        }
        i := i + 1;
      }
      assert ws[i..] == [];
    }

    method GetNewNames(id: int) returns (names: seq<(int, string)>)
      requires Valid() && id in clientsData
      modifies this
      ensures Known(old(View()).data[id].following, old(View()).data)
      ensures Valid() && (View(), names) == R.GetNewNames(old(View()), id)
    {
      GetNewNamesKeepsConsistency(View(), id);
      var following;
      following, names := RenameWatchers(clientsData[id].following, clientsData);
      clientsData := clientsData[id := clientsData[id].(following := following)];
    }
  }
}
