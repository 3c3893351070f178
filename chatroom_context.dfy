/** The chatroom list of the sidebar: a list of rooms and a pointer to the
    active one, kept in two state cells, together with the two effects that
    load the list from the browser's key/value storage on mount and write it
    back whenever the list changes. */
module ChatroomContext {
  import opened JsPrimitives

  /** The storage key under which the whole list is saved. */
  const ChatroomsKey: string := "OLLAMA_NEXT_CHATROOMS"

  datatype Chatroom = Chatroom(id: string, name: string, lastMessage: Option<string>, updatedAt: int)

  /** The browser's key/value storage. */
  type Storage = map<string, string>

  predicate HasId(rooms: seq<Chatroom>, id: string) {
    exists k :: 0 <= k < |rooms| && rooms[k].id == id
  }

  predicate IdsUnique(rooms: seq<Chatroom>) {
    forall j, k :: 0 <= j < k < |rooms| ==> rooms[j].id != rooms[k].id
  }

  /** The display name of the room created when `count` rooms exist. */
  function NewChatName(count: nat): (r: string)
    ensures |r| > 9 && r[..9] == "New Chat "
    ensures IsDigits(r[9..]) && DecimalValue(r[9..]) == count + 1
    ensures r[9] != '0'
  {
    var digits := DecimalString(count + 1);
    DecimalRoundTrip(count + 1);
    assert ("New Chat " + digits)[9..] == digits;
    "New Chat " + digits
  }

  /** Rooms created at different list lengths get different names. */
  lemma NewChatNamesDistinct(m: nat, n: nat)
    requires m != n
    ensures NewChatName(m) != NewChatName(n)
  {
  }

  /** `createChatroom`'s list transition: the new room, named after the old
      length, in front of the old rooms. */
  function WithNewRoom(rooms: seq<Chatroom>, id: string, now: int): (r: seq<Chatroom>)
    ensures |r| == |rooms| + 1 && r[1..] == rooms
    ensures r[0].id == id && r[0].lastMessage == None && r[0].updatedAt == now
    ensures r[0].name == NewChatName(|rooms|)
  {
    [Chatroom(id, NewChatName(|rooms|), None, now)] + rooms
  }

  /** Creating a room with a fresh id keeps the ids unique. */
  lemma CreateKeepsIdsUnique(rooms: seq<Chatroom>, id: string, now: int)
    requires IdsUnique(rooms) && !HasId(rooms, id)
    ensures IdsUnique(WithNewRoom(rooms, id, now))
  {
    var r := WithNewRoom(rooms, id, now);
    forall j, k | 0 <= j < k < |r| ensures r[j].id != r[k].id {
      if j == 0 {
        assert r[k] == rooms[k - 1];
      } else {
        assert r[j] == rooms[j - 1] && r[k] == rooms[k - 1];
      }
    }
  }

  /** `deleteChatroom`'s list transition: `filter(room => room.id !== id)`. */
  function WithoutRoom(rooms: seq<Chatroom>, id: string): (r: seq<Chatroom>)
    ensures |r| <= |rooms|
    ensures forall x :: x in r <==> x in rooms && x.id != id
    ensures !HasId(r, id)
  {
    if rooms == [] then []
    else (if rooms[0].id != id then [rooms[0]] else []) + WithoutRoom(rooms[1..], id)
  }

  /** Deleting keeps the surviving rooms in their order: the filter of a
      concatenation is the concatenation of the filters. */
  lemma {:induction false} WithoutRoomConcat(a: seq<Chatroom>, b: seq<Chatroom>, id: string)
    ensures WithoutRoom(a + b, id) == WithoutRoom(a, id) + WithoutRoom(b, id)
  {
    if a != [] {
      assert (a + b)[1..] == a[1..] + b;
      WithoutRoomConcat(a[1..], b, id);
    } else {
      assert a + b == b;
    }
  }

  /** Deleting an id no room has changes nothing. */
  lemma {:induction false} WithoutAbsentRoom(rooms: seq<Chatroom>, id: string)
    requires !HasId(rooms, id)
    ensures WithoutRoom(rooms, id) == rooms
  {
    if rooms != [] {
      assert !HasId(rooms[1..], id) by {
        forall k | 0 <= k < |rooms[1..]| ensures rooms[1..][k].id != id {
          assert rooms[1..][k] == rooms[k + 1];
        }
      }
      WithoutAbsentRoom(rooms[1..], id);
    }
  }

  /** Deleting a room just created with a fresh id gives back the old list. */
  lemma DeleteUndoesCreate(rooms: seq<Chatroom>, id: string, now: int)
    requires !HasId(rooms, id)
    ensures WithoutRoom(WithNewRoom(rooms, id, now), id) == rooms
  {
    var r := WithNewRoom(rooms, id, now);
    assert r == [r[0]] + rooms;
    WithoutRoomConcat([r[0]], rooms, id);
    WithoutAbsentRoom(rooms, id);
  }

  /** `chatrooms[0]?.id || null`: the first id, with an empty id as falsy. */
  function FirstIdOrNull(rooms: seq<Chatroom>): (r: Option<string>)
    ensures r == None <==> (|rooms| == 0 || rooms[0].id == "")
    ensures r != None ==> r.value == rooms[0].id
  {
    if |rooms| == 0 || rooms[0].id == "" then None else Some(rooms[0].id)
  }

  /** `deleteChatroom`'s pointer transition. The candidate comes from the list
      as it was BEFORE the delete. */
  function ActiveAfterDelete(before: seq<Chatroom>, active: Option<string>, id: string): (r: Option<string>)
    ensures active != Some(id) ==> r == active
    ensures active == Some(id) ==> r == FirstIdOrNull(before)
  {
    if active == Some(id) then FirstIdOrNull(before) else active
  }

  /** Deleting the active room while it heads the list leaves the pointer on
      the id that no longer names any room. */
  lemma DeleteActiveFirstLeavesDanglingPointer(rooms: seq<Chatroom>, id: string)
    requires |rooms| > 0 && rooms[0].id == id && id != ""
    ensures ActiveAfterDelete(rooms, Some(id), id) == Some(id)
    ensures !HasId(WithoutRoom(rooms, id), id)
  {
  }

  /** Deleting the active room while another room heads the list moves the
      pointer to that room, which survives the delete. */
  lemma DeleteActiveMovesToSurvivingHead(rooms: seq<Chatroom>, id: string)
    requires |rooms| > 0 && rooms[0].id != id && rooms[0].id != ""
    ensures ActiveAfterDelete(rooms, Some(id), id) == Some(rooms[0].id)
    ensures HasId(WithoutRoom(rooms, id), rooms[0].id)
  {
    assert rooms[0] in WithoutRoom(rooms, id);
  }

  /** `updateChatroomLastMessage`'s list transition: a `map` that stamps the
      message and time on the rooms with the id. */
  function WithLastMessage(rooms: seq<Chatroom>, id: string, message: string, now: int): (r: seq<Chatroom>)
    ensures |r| == |rooms|
    ensures forall k :: 0 <= k < |r| ==> r[k].id == rooms[k].id && r[k].name == rooms[k].name
    ensures forall k :: 0 <= k < |r| && rooms[k].id != id ==> r[k] == rooms[k]
    ensures forall k :: 0 <= k < |r| && rooms[k].id == id ==>
      r[k].lastMessage == Some(message) && r[k].updatedAt == now
  {
    seq(|rooms|, k requires 0 <= k < |rooms| =>
      if rooms[k].id == id then rooms[k].(lastMessage := Some(message), updatedAt := now) else rooms[k])
  }

  /** Of two updates of the same room, the later one wins. */
  lemma LastUpdateWins(rooms: seq<Chatroom>, id: string, m1: string, t1: int, m2: string, t2: int)
    ensures WithLastMessage(WithLastMessage(rooms, id, m1, t1), id, m2, t2)
         == WithLastMessage(rooms, id, m2, t2)
  {
    var left := WithLastMessage(WithLastMessage(rooms, id, m1, t1), id, m2, t2);
    var right := WithLastMessage(rooms, id, m2, t2);
    assert forall k :: 0 <= k < |rooms| ==> left[k] == right[k];
  }

  /** The persist effect: a non-empty list is written under the key, an empty
      one removes the key; no other key is touched. */
  function Persist(storage: Storage, rooms: seq<Chatroom>, encode: seq<Chatroom> -> string): (r: Storage)
    ensures forall key :: key != ChatroomsKey ==> (key in r <==> key in storage)
    ensures forall key :: key != ChatroomsKey && key in r ==> r[key] == storage[key]
    ensures ChatroomsKey in r <==> |rooms| > 0
    ensures |rooms| > 0 ==> r[ChatroomsKey] == encode(rooms)
  {
    if |rooms| > 0 then storage[ChatroomsKey := encode(rooms)] else storage - {ChatroomsKey}
  }

  /** What the load effect reads: a saved value that is present, non-empty
      (`if (saved)`) and parses. */
  function SavedRooms(storage: Storage, parse: string -> Option<seq<Chatroom>>): (r: Option<seq<Chatroom>>)
    ensures r != None <==> ChatroomsKey in storage && storage[ChatroomsKey] != "" && parse(storage[ChatroomsKey]) != None
    ensures r != None ==> r == parse(storage[ChatroomsKey])
  {
    if ChatroomsKey in storage && storage[ChatroomsKey] != "" then parse(storage[ChatroomsKey]) else None
  }

  /** The provider's state once mounted. */
  datatype Mounted = Mounted(rooms: seq<Chatroom>, active: Option<string>, storage: Storage)

  /** Mounting: the load effect runs, then the persist effect of the first
      render, which still sees the empty list; if the load set a list, the
      persist effect runs again for it. */
  function Mount(storage: Storage, encode: seq<Chatroom> -> string,
                 parse: string -> Option<seq<Chatroom>>): (r: Mounted)
    ensures SavedRooms(storage, parse) == None ==>
      r.rooms == [] && r.active == None && r.storage == storage - {ChatroomsKey}
    ensures SavedRooms(storage, parse) != None ==>
      r.rooms == SavedRooms(storage, parse).value
      && r.active == (if |r.rooms| > 0 then Some(r.rooms[0].id) else None)
      && r.storage == Persist(storage, r.rooms, encode)
  {
    var loaded := SavedRooms(storage, parse);
    var first := Persist(storage, [], encode);
    match loaded
    case None => Mounted([], None, first)
    case Some(rooms) =>
      var active := if |rooms| > 0 then Some(rooms[0].id) else None;
      var r := Mounted(rooms, active, Persist(first, rooms, encode));
      assert r.storage == Persist(storage, rooms, encode);
      r
  }

  /** A list persisted with an encoder that the parser inverts comes back on
      the next mount, with its first room active and the saved value kept. */
  lemma PersistThenMount(storage: Storage, rooms: seq<Chatroom>,
                         encode: seq<Chatroom> -> string, parse: string -> Option<seq<Chatroom>>)
    requires |rooms| > 0 && encode(rooms) != ""
    requires parse(encode(rooms)) == Some(rooms)
    ensures var saved := Persist(storage, rooms, encode);
      Mount(saved, encode, parse) == Mounted(rooms, Some(rooms[0].id), saved)
  {
    var saved := Persist(storage, rooms, encode);
    assert SavedRooms(saved, parse) == Some(rooms);
    assert Persist(saved, rooms, encode) == saved;
  }

  /** A saved value that does not parse is dropped from storage on mount. */
  lemma MountDropsUnparsable(storage: Storage, encode: seq<Chatroom> -> string,
                             parse: string -> Option<seq<Chatroom>>)
    requires ChatroomsKey in storage && parse(storage[ChatroomsKey]) == None
    ensures Mount(storage, encode, parse).rooms == []
    ensures Mount(storage, encode, parse).active == None
    ensures ChatroomsKey !in Mount(storage, encode, parse).storage
  {
  }

  /** The chatroom provider: two state cells plus the storage its effects
      use. The persist effect runs after every change of the list. */
  class ChatroomProvider {
    var chatrooms: seq<Chatroom>
    var activeChatroomId: Option<string>
    var storage: Storage
    const encode: seq<Chatroom> -> string

    constructor (saved: Storage, encode: seq<Chatroom> -> string, parse: string -> Option<seq<Chatroom>>)
      ensures this.encode == encode
      ensures Mounted(chatrooms, activeChatroomId, storage) == Mount(saved, encode, parse)
    {
      this.encode := encode;
      var m := Mount(saved, encode, parse);
      chatrooms, activeChatroomId, storage := m.rooms, m.active, m.storage;
    }

    /** `createChatroom`, with the generated id and the clock reading given. */
    method CreateChatroom(id: string, now: int)
      modifies this
      ensures chatrooms == WithNewRoom(old(chatrooms), id, now)
      ensures activeChatroomId == Some(id)
      ensures storage == Persist(old(storage), chatrooms, encode)
    {
      chatrooms := WithNewRoom(chatrooms, id, now);
      activeChatroomId := Some(id);
      storage := Persist(storage, chatrooms, encode);
    }

    /** `selectChatroom`: no membership check, and the list is not touched. */
    method SelectChatroom(id: string)
      modifies this
      ensures activeChatroomId == Some(id)
      ensures chatrooms == old(chatrooms) && storage == old(storage)
    {
      activeChatroomId := Some(id);
    }

    method DeleteChatroom(id: string)
      modifies this
      ensures chatrooms == WithoutRoom(old(chatrooms), id)
      ensures activeChatroomId == ActiveAfterDelete(old(chatrooms), old(activeChatroomId), id)
      ensures storage == Persist(old(storage), chatrooms, encode)
    {
      var before := chatrooms;
      chatrooms := WithoutRoom(chatrooms, id);
      if activeChatroomId == Some(id) {
        activeChatroomId := FirstIdOrNull(before);
      }
      storage := Persist(storage, chatrooms, encode);
    }

    /** `updateChatroomLastMessage`, with the clock reading given. */
    method UpdateChatroomLastMessage(id: string, message: string, now: int)
      modifies this
      ensures chatrooms == WithLastMessage(old(chatrooms), id, message, now)
      ensures activeChatroomId == old(activeChatroomId)
      ensures storage == Persist(old(storage), chatrooms, encode)
    {
      chatrooms := WithLastMessage(chatrooms, id, message, now);
      storage := Persist(storage, chatrooms, encode);
    }
  }
}
