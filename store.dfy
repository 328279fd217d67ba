/**
 * The server's in-memory store: the `salas` array that the Express handlers
 * scan with `find`/`findIndex`, grow with `push`, shrink with `splice`, and
 * whose rooms get messages appended and previews reassigned.  Each handler
 * is proved to give the reply and the new room list of its counterpart in
 * module Registry, so every property proved there holds of the store.
 */
module Store {
  import opened Chat
  import opened Registry

  class RoomStore {
    var salas: seq<Room>

    /** Room ids stay unique: the seed's are, and every created room gets a fresh one. */
    ghost predicate Valid()
      reads this
    {
      UniqueIds(salas)
    }

    /** The store as the server starts: the three seeded rooms. */
    constructor ()
      ensures Valid() && salas == Seed()
    {
      salas := Seed();
      assert Seed()[0].id != Seed()[1].id && Seed()[0].id != Seed()[2].id && Seed()[1].id != Seed()[2].id;
    }

    /** The linear scan of `findIndex(s => s.id === id)` and `find(s => s.id === id)`. */
    method IndexOf(id: string) returns (k: int)
      ensures k == FindIndex(salas, id)
      ensures k >= 0 ==> salas[k].id == id
    {
      k := 0;
      while k < |salas| && salas[k].id != id
        invariant 0 <= k <= |salas|
        invariant forall j :: 0 <= j < k ==> salas[j].id != id
      {
        k := k + 1;
      }
      if k == |salas| {
        k := -1;
      } else {
        assert salas[k] in salas;
      }
    }

    /** GET /api/salas: the summaries in store order and the online count. */
    method ListRooms() returns (rooms: seq<Summary>, online: int)
      ensures |rooms| == |salas|
      ensures forall i :: 0 <= i < |salas| ==> rooms[i] == Summarize(salas[i])
      ensures rooms == List(salas) && online == UsuariosOnline
    {
      rooms := List(salas);
      online := UsuariosOnline;
    }

    /** POST /api/salas; `id` is the fresh uuid the server would draw. */
    method CreateRoom(id: string, nome: Option<string>, tempo: Option<int>, criador: Creator) returns (r: Reply<Summary>)
      requires Valid() && id !in Ids(salas)
      modifies this
      ensures Valid()
      ensures (r, salas) == Create(old(salas), id, nome, tempo, criador)
    {
      if !Truthy(nome) {
        return Err(BadRequest, ErrNomeObrigatorio);
      }
      var novaSala := NewRoom(id, nome.value, tempo, criador);
      assert forall j :: 0 <= j < |salas| ==> salas[j] in salas;
      salas := salas + [novaSala];
      r := Ok(Summarize(novaSala));
    }

    /** DELETE /api/salas/:id with the request body's `criador`. */
    method DeleteRoom(id: string, criador: Creator) returns (r: Reply<()>)
      requires Valid()
      modifies this
      ensures Valid()
      ensures (r, salas) == Delete(old(salas), id, criador)
    {
      var salaIndex := IndexOf(id);
      if salaIndex == -1 {
        return Err(NotFound, ErrSalaNaoEncontrada);
      }
      var sala := salas[salaIndex];
      if sala.criador != criador {
        return Err(Forbidden, ErrApenasCriador);
      }
      if sala.fixa {
        return Err(Forbidden, ErrSalaOficial);
      }
      ghost var before := salas;
      salas := salas[..salaIndex] + salas[salaIndex + 1..];
      assert UniqueIds(salas) by {
        forall i, j | 0 <= i < |salas| && 0 <= j < |salas| && i != j ensures salas[i].id != salas[j].id {
          var i' := if i < salaIndex then i else i + 1;
          var j' := if j < salaIndex then j else j + 1;
          assert salas[i] == before[i'] && salas[j] == before[j'];
        }
      }
      r := Ok(());
    }

    /** GET /api/salas/:id/mensagens. */
    method GetMessages(id: string) returns (r: Reply<seq<Message>>)
      ensures r == Read(salas, id)
      ensures r.Err? <==> id !in Ids(salas)
    {
      var k := IndexOf(id);
      if k == -1 {
        return Err(NotFound, ErrSalaNaoEncontrada);
      }
      r := Ok(salas[k].mensagens);
    }

    /** POST /api/salas/:id/mensagens; `msgId` and `tempo` are the uuid and clock reading the server would take. */
    method PostMessage(id: string, msgId: string, tempo: string, remetente: Option<string>, texto: Option<string>)
      returns (r: Reply<Message>)
      requires Valid()
      modifies this
      ensures Valid()
      ensures (r, salas) == Post(old(salas), id, msgId, tempo, remetente, texto)
    {
      if !Truthy(remetente) || !Truthy(texto) {
        return Err(BadRequest, ErrCamposObrigatorios);
      }
      var k := IndexOf(id);
      if k == -1 {
        return Err(NotFound, ErrSalaNaoEncontrada);
      }
      var novaMensagem := Message(msgId, remetente.value, texto.value, tempo, false);
      var sala := salas[k];
      ghost var before := salas;
      salas := salas[k := sala.(mensagens := sala.mensagens + [novaMensagem])];
      salas := salas[k := salas[k].(preview := Preview(texto.value))];
      assert salas == before[k := sala.(mensagens := sala.mensagens + [novaMensagem], preview := Preview(texto.value))];
      r := Ok(novaMensagem);
    }
  }
}
