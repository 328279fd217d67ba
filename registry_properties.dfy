/**
 * What the room store's handlers promise: validation order and error
 * precedence, what a successful call adds or removes, and what holds across
 * any run of requests (pinned rooms stay, ids stay unique, messages keep
 * their posting order).
 */
module RegistryProperties {
  import opened Chat
  import opened Registry

  // ---------------------------------------------------------------- lookup

  /** Two room lists with the same ids position by position find every id at the same place. */
  lemma FindIndexSameIds(a: seq<Room>, b: seq<Room>, id: string)
    requires |a| == |b|
    requires forall i :: 0 <= i < |a| ==> a[i].id == b[i].id
    ensures FindIndex(a, id) == FindIndex(b, id)
  {
  }

  /** Appending a room never changes where an id already present is found. */
  lemma FindIndexAppend(rooms: seq<Room>, sala: Room, id: string)
    ensures FindIndex(rooms, id) >= 0 ==> FindIndex(rooms + [sala], id) == FindIndex(rooms, id)
    ensures FindIndex(rooms, id) == -1 && sala.id == id ==> FindIndex(rooms + [sala], id) == |rooms|
  {
    var k := FindIndex(rooms + [sala], id);
    assert forall j :: 0 <= j < |rooms| ==> (rooms + [sala])[j] == rooms[j];
    if FindIndex(rooms, id) == -1 && sala.id == id {
      assert (rooms + [sala])[|rooms|].id == id;
      assert id !in Ids(rooms);
      assert forall j :: 0 <= j < |rooms| ==> rooms[j] in rooms;
    }
  }

  /** With unique ids, the room found is the only one with that id. */
  lemma FindIndexUnique(rooms: seq<Room>, id: string, i: int)
    requires UniqueIds(rooms)
    requires 0 <= i < |rooms| && rooms[i].id == id
    ensures FindIndex(rooms, id) == i
  {
  }

  // ---------------------------------------------------------------- listing

  /** A successful create adds its reply's summary at the end of the listing. */
  lemma ListAfterCreate(rooms: seq<Room>, id: string, nome: Option<string>, tempo: Option<int>, criador: Creator)
    requires Truthy(nome)
    ensures List(Create(rooms, id, nome, tempo, criador).1) == List(rooms) + [Create(rooms, id, nome, tempo, criador).0.value]
  {
  }

  /** A post changes the listing only in the target room's preview. */
  lemma ListAfterPost(rooms: seq<Room>, id: string, msgId: string, tempo: string,
                      remetente: Option<string>, texto: Option<string>)
    requires Post(rooms, id, msgId, tempo, remetente, texto).0.Ok?
    ensures var k := FindIndex(rooms, id);
      List(Post(rooms, id, msgId, tempo, remetente, texto).1) ==
      List(rooms)[k := List(rooms)[k].(preview := Preview(texto.value))]
  {
  }

  // ---------------------------------------------------------------- create

  /** A missing or empty name is refused with 400 and the store is left as it was. */
  lemma CreateRejectsMissingName(rooms: seq<Room>, id: string, nome: Option<string>, tempo: Option<int>, criador: Creator)
    requires nome.None? || nome.value == ""
    ensures Create(rooms, id, nome, tempo, criador) == (Err(BadRequest, ErrNomeObrigatorio), rooms)
    ensures Code(Create(rooms, id, nome, tempo, criador).0.status) == 400
  {
  }

  /** A valid create appends exactly one new room, leaving earlier rooms alone, and replies with its summary. */
  lemma CreateAppendsOneRoom(rooms: seq<Room>, id: string, nome: Option<string>, tempo: Option<int>, criador: Creator)
    requires Truthy(nome)
    ensures var (reply, after) := Create(rooms, id, nome, tempo, criador);
      && |after| == |rooms| + 1
      && after[..|rooms|] == rooms
      && var sala := after[|rooms|];
      && sala.id == id && sala.nome == nome.value && sala.usuarios == 1
      && sala.preview == NewRoomPreview && !sala.fixa && sala.mensagens == [] && sala.criador == criador
      && (tempo.Some? && tempo.value != 0 ==> sala.tempoAutoDestruicao == tempo.value)
      && (tempo.None? || tempo.value == 0 ==> sala.tempoAutoDestruicao == 360)
      && reply == Ok(Summarize(sala))
  {
  }

  /** A create with a fresh id keeps room ids unique. */
  lemma CreateKeepsIdsUnique(rooms: seq<Room>, id: string, nome: Option<string>, tempo: Option<int>, criador: Creator)
    requires UniqueIds(rooms) && id !in Ids(rooms)
    ensures UniqueIds(Create(rooms, id, nome, tempo, criador).1)
    ensures Ids(Create(rooms, id, nome, tempo, criador).1) == Ids(rooms) + (if Truthy(nome) then {id} else {})
  {
  }

  // ---------------------------------------------------------------- delete

  /** An id no room has is answered with 404 and changes nothing. */
  lemma DeleteUnknownId(rooms: seq<Room>, id: string, criador: Creator)
    requires id !in Ids(rooms)
    ensures Delete(rooms, id, criador) == (Err(NotFound, ErrSalaNaoEncontrada), rooms)
  {
  }

  /** The creator check comes first: a mismatching requester gets 403 even on a pinned room. */
  lemma DeleteChecksCreatorFirst(rooms: seq<Room>, id: string, criador: Creator)
    requires FindIndex(rooms, id) >= 0
    requires rooms[FindIndex(rooms, id)].criador != criador
    ensures Delete(rooms, id, criador) == (Err(Forbidden, ErrApenasCriador), rooms)
  {
  }

  /** The room's own creator still gets 403 on a pinned room, and nothing changes. */
  lemma DeletePinnedForbidden(rooms: seq<Room>, id: string, criador: Creator)
    requires FindIndex(rooms, id) >= 0
    requires rooms[FindIndex(rooms, id)].criador == criador && rooms[FindIndex(rooms, id)].fixa
    ensures Delete(rooms, id, criador) == (Err(Forbidden, ErrSalaOficial), rooms)
  {
  }

  /** A delete succeeds exactly when a room has the id and the first such room has the requester's creator value and is not pinned. */
  lemma DeleteSucceedsIff(rooms: seq<Room>, id: string, criador: Creator)
    ensures Delete(rooms, id, criador).0.Ok? <==>
      exists i :: 0 <= i < |rooms| && rooms[i].id == id && (forall j :: 0 <= j < i ==> rooms[j].id != id)
                  && rooms[i].criador == criador && !rooms[i].fixa
  {
    var k := FindIndex(rooms, id);
    if exists i :: 0 <= i < |rooms| && rooms[i].id == id && (forall j :: 0 <= j < i ==> rooms[j].id != id)
                  && rooms[i].criador == criador && !rooms[i].fixa {
      var i :| 0 <= i < |rooms| && rooms[i].id == id && (forall j :: 0 <= j < i ==> rooms[j].id != id)
               && rooms[i].criador == criador && !rooms[i].fixa;
      assert rooms[i] in rooms;
      assert k == i;
    }
  }

  /** A successful delete removes exactly the first room with the id; the others keep their order. */
  lemma DeleteRemovesFirstMatch(rooms: seq<Room>, id: string, criador: Creator)
    requires Delete(rooms, id, criador).0.Ok?
    ensures var k := FindIndex(rooms, id);
      var after := Delete(rooms, id, criador).1;
      && 0 <= k
      && |after| == |rooms| - 1
      && (forall i :: 0 <= i < k ==> after[i] == rooms[i])
      && (forall i :: k <= i < |after| ==> after[i] == rooms[i + 1])
      && multiset(after) + multiset{rooms[k]} == multiset(rooms)
  {
    var k := FindIndex(rooms, id);
    assert rooms == rooms[..k] + [rooms[k]] + rooms[k + 1..];
  }

  /** No delete call ever removes a pinned room. */
  lemma DeleteKeepsPinnedRooms(rooms: seq<Room>, id: string, criador: Creator)
    ensures forall r :: r in rooms && r.fixa ==> r in Delete(rooms, id, criador).1
  {
  }

  /** With unique ids, a deleted room is gone: the id is no longer in the store and reading it gives 404. */
  lemma DeleteThenNotFound(rooms: seq<Room>, id: string, criador: Creator)
    requires UniqueIds(rooms)
    requires Delete(rooms, id, criador).0.Ok?
    ensures var after := Delete(rooms, id, criador).1;
      && UniqueIds(after)
      && Ids(after) == Ids(rooms) - {id}
      && Read(after, id) == Err(NotFound, ErrSalaNaoEncontrada)
  {
  }

  /** The three-valued creator at work on the seeded rooms: a request without `criador`
      (undefined) cannot delete the unpinned seeded room, but one sending `criador: null` can. */
  lemma SeededRoomDeletedByNullCreator()
    ensures Delete(Seed(), "sala2", Undefined) == (Err(Forbidden, ErrApenasCriador), Seed())
    ensures Delete(Seed(), "sala2", Null) == (Ok(()), [Seed()[0], Seed()[2]])
    ensures Delete(Seed(), "sala1", Null) == (Err(Forbidden, ErrSalaOficial), Seed())
  {
    assert FindIndex(Seed(), "sala2") == 1 by { FindIndexUnique(Seed(), "sala2", 1); }
    assert FindIndex(Seed(), "sala1") == 0;
    assert Seed()[..1] + Seed()[2..] == [Seed()[0], Seed()[2]];
  }

  // ---------------------------------------------------------------- messages

  /** An empty sender or text is refused with 400 before the room is looked up, so also for unknown ids. */
  lemma PostValidatesBeforeLookup(rooms: seq<Room>, id: string, msgId: string, tempo: string,
                                  remetente: Option<string>, texto: Option<string>)
    requires !Truthy(remetente) || !Truthy(texto)
    ensures Post(rooms, id, msgId, tempo, remetente, texto) == (Err(BadRequest, ErrCamposObrigatorios), rooms)
  {
  }

  /** A valid post to an unknown id is answered with 404 and changes nothing. */
  lemma PostUnknownId(rooms: seq<Room>, id: string, msgId: string, tempo: string,
                      remetente: Option<string>, texto: Option<string>)
    requires Truthy(remetente) && Truthy(texto) && id !in Ids(rooms)
    ensures Post(rooms, id, msgId, tempo, remetente, texto) == (Err(NotFound, ErrSalaNaoEncontrada), rooms)
  {
  }

  /** A valid post appends one user message to the end of the target room only and sets its preview. */
  lemma PostAppendsToTarget(rooms: seq<Room>, id: string, msgId: string, tempo: string,
                            remetente: Option<string>, texto: Option<string>)
    requires Truthy(remetente) && Truthy(texto) && id in Ids(rooms)
    ensures var k := FindIndex(rooms, id);
      var (reply, after) := Post(rooms, id, msgId, tempo, remetente, texto);
      && reply.Ok?
      && reply.value.remetente == remetente.value && reply.value.texto == texto.value
      && reply.value.id == msgId && reply.value.tempo == tempo && !reply.value.sistema
      && |after| == |rooms|
      && after[k].mensagens == rooms[k].mensagens + [reply.value]
      && after[k].preview == Preview(texto.value) && |after[k].preview| <= 53
      && after[k] == rooms[k].(mensagens := after[k].mensagens, preview := after[k].preview)
      && (forall j :: 0 <= j < |rooms| && j != k ==> after[j] == rooms[j])
  {
  }

  /** Reading a room right after a valid post to it gives its earlier messages followed by the new one. */
  lemma PostThenRead(rooms: seq<Room>, id: string, msgId: string, tempo: string,
                     remetente: Option<string>, texto: Option<string>)
    requires Truthy(remetente) && Truthy(texto) && id in Ids(rooms)
    ensures var (reply, after) := Post(rooms, id, msgId, tempo, remetente, texto);
      Read(after, id) == Ok(Read(rooms, id).value + [reply.value])
  {
    var after := Post(rooms, id, msgId, tempo, remetente, texto).1;
    FindIndexSameIds(after, rooms, id);
  }

  /** Posting "hello" as Alice to the pinned seeded room, then reading it, gives exactly that one message. */
  lemma PostToSeededRoom(msgId: string, tempo: string)
    ensures Read(Post(Seed(), "sala1", msgId, tempo, Some("Alice"), Some("hello")).1, "sala1")
         == Ok([Message(msgId, "Alice", "hello", tempo, false)])
  {
    assert Truthy(Some("Alice")) && Truthy(Some("hello"));
    var after := Post(Seed(), "sala1", msgId, tempo, Some("Alice"), Some("hello")).1;
    assert FindIndex(Seed(), "sala1") == 0;
    assert after[0].id == "sala1";
    assert FindIndex(after, "sala1") == 0;
    assert after[0].mensagens == [Message(msgId, "Alice", "hello", tempo, false)];
  }

  // ---------------------------------------------------------------- runs of requests

  /** Removing one unpinned room leaves the pinned ids as they were. */
  lemma DeleteKeepsPinnedIds(rooms: seq<Room>, id: string, criador: Creator)
    ensures PinnedIds(Delete(rooms, id, criador).1) == PinnedIds(rooms)
  {
  }

  /** A post changes messages and preview only, so the pinned ids stay as they were. */
  lemma PostKeepsPinnedIds(rooms: seq<Room>, id: string, msgId: string, tempo: string,
                           remetente: Option<string>, texto: Option<string>)
    ensures PinnedIds(Post(rooms, id, msgId, tempo, remetente, texto).1) == PinnedIds(rooms)
  {
    var after := Post(rooms, id, msgId, tempo, remetente, texto).1;
    assert |after| == |rooms|;
    assert forall i :: 0 <= i < |rooms| ==> after[i].id == rooms[i].id && after[i].fixa == rooms[i].fixa;
    forall x | x in PinnedIds(after) ensures x in PinnedIds(rooms) {
      var r :| r in after && r.fixa && r.id == x;
      var i :| 0 <= i < |after| && after[i] == r;
      assert rooms[i] in rooms;
    }
    forall x | x in PinnedIds(rooms) ensures x in PinnedIds(after) {
      var r :| r in rooms && r.fixa && r.id == x;
      var i :| 0 <= i < |rooms| && rooms[i] == r;
      assert after[i] in after;
    }
  }

  /** A create adds an unpinned room, so the pinned ids stay as they were. */
  lemma CreateKeepsPinnedIds(rooms: seq<Room>, id: string, nome: Option<string>, tempo: Option<int>, criador: Creator)
    ensures PinnedIds(Create(rooms, id, nome, tempo, criador).1) == PinnedIds(rooms)
  {
  }

  /** A single request never adds or removes a pinned room. */
  lemma StepKeepsPinnedIds(rooms: seq<Room>, req: Request)
    ensures PinnedIds(Step(rooms, req)) == PinnedIds(rooms)
  {
  }

  /** Across any run of requests the set of pinned rooms stays exactly what it was. */
  lemma {:induction false} RunKeepsPinnedIds(rooms: seq<Room>, reqs: seq<Request>)
    ensures PinnedIds(Run(rooms, reqs)) == PinnedIds(rooms)
    decreases |reqs|
  {
    if reqs != [] {
      StepKeepsPinnedIds(rooms, reqs[0]);
      RunKeepsPinnedIds(Step(rooms, reqs[0]), reqs[1..]);
    }
  }

  /** From the seeded store, "sala1" is the one pinned room after any run of requests. */
  lemma SeedPinnedForever(reqs: seq<Request>)
    ensures PinnedIds(Run(Seed(), reqs)) == {"sala1"}
  {
    RunKeepsPinnedIds(Seed(), reqs);
    assert Seed()[0] in Seed();
    assert forall r :: r in Seed() && r.fixa ==> r == Seed()[0];
  }

  /** A single request keeps ids unique when a created room's id is fresh. */
  lemma StepKeepsIdsUnique(rooms: seq<Room>, req: Request)
    requires UniqueIds(rooms)
    requires req.CreateRequest? ==> req.newId !in Ids(rooms)
    ensures UniqueIds(Step(rooms, req))
  {
  }

  /** Across any run whose creates use fresh ids, room ids stay unique. */
  lemma {:induction false} RunKeepsIdsUnique(rooms: seq<Room>, reqs: seq<Request>)
    requires UniqueIds(rooms) && FreshIds(rooms, reqs)
    ensures UniqueIds(Run(rooms, reqs))
    decreases |reqs|
  {
    if reqs != [] {
      StepKeepsIdsUnique(rooms, reqs[0]);
      RunKeepsIdsUnique(Step(rooms, reqs[0]), reqs[1..]);
    }
  }

  /** The first room holding an id is the one FindIndex finds. */
  lemma FindIndexIs(rooms: seq<Room>, id: string, i: int)
    requires 0 <= i < |rooms| && rooms[i].id == id
    requires forall j :: 0 <= j < i ==> rooms[j].id != id
    ensures FindIndex(rooms, id) == i
  {
    assert rooms[i] in rooms;
  }

  /** Deleting another id, whatever the outcome, keeps the room found for this id unchanged;
      it is found one place earlier when the deleted room stood before it. */
  lemma DeleteKeepsOtherRoom(rooms: seq<Room>, did: string, criador: Creator, id: string)
    requires did != id
    requires FindIndex(rooms, id) >= 0
    ensures var after := Delete(rooms, did, criador).1;
      && FindIndex(after, id) >= 0
      && after[FindIndex(after, id)] == rooms[FindIndex(rooms, id)]
  {
    var k := FindIndex(rooms, id);
    var (reply, after) := Delete(rooms, did, criador);
    if reply.Ok? {
      var kd := FindIndex(rooms, did);
      assert after == rooms[..kd] + rooms[kd + 1..];
      assert kd != k;
      var k' := if k < kd then k else k - 1;
      assert after[k'] == rooms[k];
      forall j | 0 <= j < k' ensures after[j].id != id {
        assert after[j] == rooms[if j < kd then j else j + 1];
      }
      FindIndexIs(after, id, k');
    }
  }

  /** A request that is not a delete of this id keeps a room with the id, appends to its messages
      exactly the message it accepts for that room, and, when it is no delete at all, keeps the
      room at the same position. */
  lemma StepAppendsAccepted(rooms: seq<Room>, req: Request, id: string)
    requires !(req.DeleteRequest? && req.roomId == id)
    requires FindIndex(rooms, id) >= 0
    ensures var after := Step(rooms, req);
      && FindIndex(after, id) >= 0
      && after[FindIndex(after, id)].mensagens == rooms[FindIndex(rooms, id)].mensagens + AcceptedBy(req, id)
    ensures !req.DeleteRequest? ==> FindIndex(Step(rooms, req), id) == FindIndex(rooms, id)
  {
    var k := FindIndex(rooms, id);
    var after := Step(rooms, req);
    match req
    case ListRequest =>
    case ReadRequest(_) =>
    case DeleteRequest(did, criador) =>
      DeleteKeepsOtherRoom(rooms, did, criador, id);
    case CreateRequest(nid, nome, tempo, criador) =>
      if Truthy(nome) { FindIndexAppend(rooms, after[|rooms|], id); assert after == rooms + [after[|rooms|]]; }
    case PostRequest(pid, msgId, sentAt, remetente, texto) =>
      FindIndexSameIds(after, rooms, id);
      if Truthy(remetente) && Truthy(texto) && FindIndex(rooms, pid) >= 0 && pid != id {
        assert FindIndex(rooms, pid) != k;
      }
  }

  lemma AppendAssoc<T>(a: seq<T>, b: seq<T>, c: seq<T>)
    ensures (a + b) + c == a + (b + c)
  {
  }

  /** After any run in which no request deletes this id, a room with the id is still there,
      holding its earlier messages followed by every valid post addressed to it, in order. */
  lemma {:induction false} RunAppendsAccepted(rooms: seq<Room>, reqs: seq<Request>, id: string)
    requires forall i :: 0 <= i < |reqs| && reqs[i].DeleteRequest? ==> reqs[i].roomId != id
    requires FindIndex(rooms, id) >= 0
    ensures var after := Run(rooms, reqs);
      && FindIndex(after, id) >= 0
      && after[FindIndex(after, id)].mensagens == rooms[FindIndex(rooms, id)].mensagens + Accepted(reqs, id)
    decreases |reqs|
  {
    if reqs != [] {
      var k := FindIndex(rooms, id);
      var next := Step(rooms, reqs[0]);
      var rest := reqs[1..];
      StepAppendsAccepted(rooms, reqs[0], id);
      var kn := FindIndex(next, id);
      assert next[kn].mensagens == rooms[k].mensagens + AcceptedBy(reqs[0], id);
      assert forall i :: 0 <= i < |rest| && rest[i].DeleteRequest? ==> rest[i].roomId != id by {
        forall i | 0 <= i < |rest| && rest[i].DeleteRequest? ensures rest[i].roomId != id { assert rest[i] == reqs[i + 1]; }
      }
      RunAppendsAccepted(next, rest, id);
      var done := Run(next, rest);
      assert Run(rooms, reqs) == done;
      assert Accepted(reqs, id) == AcceptedBy(reqs[0], id) + Accepted(rest, id);
      AppendAssoc(rooms[k].mensagens, AcceptedBy(reqs[0], id), Accepted(rest, id));
    }
  }

  /** Messages keep their posting order: reading a room after any run in which no request deletes
      it gives its earlier messages followed by every valid post addressed to it, in the order the
      posts came. */
  lemma ReadAfterRun(rooms: seq<Room>, reqs: seq<Request>, id: string)
    requires forall i :: 0 <= i < |reqs| && reqs[i].DeleteRequest? ==> reqs[i].roomId != id
    requires id in Ids(rooms)
    ensures Read(Run(rooms, reqs), id) == Ok(Read(rooms, id).value + Accepted(reqs, id))
  {
    RunAppendsAccepted(rooms, reqs, id);
  }

  /** Create room "Test" for "u1", refuse "u2"'s delete, accept "u1"'s, and the room is gone. */
  lemma CreateDeleteScenario(rooms: seq<Room>, x: string)
    requires UniqueIds(rooms) && x !in Ids(rooms)
    ensures var (r1, s1) := Create(rooms, x, Some("Test"), Some(5), Str("u1"));
      && r1.Ok? && r1.value.id == x && r1.value.tempoAutoDestruicao == 5
      && Delete(s1, x, Str("u2")) == (Err(Forbidden, ErrApenasCriador), s1)
      && Delete(s1, x, Str("u1")) == (Ok(()), rooms)
      && Read(rooms, x) == Err(NotFound, ErrSalaNaoEncontrada)
  {
    var s1 := Create(rooms, x, Some("Test"), Some(5), Str("u1")).1;
    FindIndexAppend(rooms, s1[|rooms|], x);
    assert s1 == rooms + [s1[|rooms|]];
    assert s1[..|rooms|] + s1[|rooms| + 1..] == rooms;
  }
}
