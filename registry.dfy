/**
 * The room store's handlers as functions of the room list `salas`: each
 * mutating handler gives its reply and the new list.  The class in module
 * Store runs the same handlers in place and is proved equal to these.
 */
module Registry {
  import opened Chat

  function Ids(rooms: seq<Room>): set<string>
  {
    set r | r in rooms :: r.id
  }

  predicate UniqueIds(rooms: seq<Room>)
  {
    forall i, j :: 0 <= i < |rooms| && 0 <= j < |rooms| && i != j ==> rooms[i].id != rooms[j].id
  }

  /** The ids of the pinned (official) rooms. */
  function PinnedIds(rooms: seq<Room>): set<string>
  {
    set r | r in rooms && r.fixa :: r.id
  }

  /** `findIndex(s => s.id === id)`: the position of the first room with this id, or -1. */
  function FindIndex(rooms: seq<Room>, id: string): (k: int)
    ensures -1 <= k < |rooms|
    ensures k >= 0 ==> rooms[k].id == id && forall j :: 0 <= j < k ==> rooms[j].id != id
    ensures k == -1 <==> id !in Ids(rooms)
  {
    if rooms == [] then -1
    else if rooms[0].id == id then 0
    else
      var k := FindIndex(rooms[1..], id);
      if k == -1 then -1 else k + 1
  }

  /** GET /api/salas: one summary per room, in store order, each the room without its messages. */
  function List(rooms: seq<Room>): (r: seq<Summary>)
    ensures |r| == |rooms|
    ensures forall i :: 0 <= i < |rooms| ==> WithMessages(r[i], rooms[i].mensagens) == rooms[i]
  {
    seq(|rooms|, i requires 0 <= i < |rooms| => Summarize(rooms[i]))
  }

  /** `tempoAutoDestruicao || 360`: an absent or zero budget becomes 360. */
  function Budget(tempo: Option<int>): (b: int)
    ensures b != 0
    ensures tempo.Some? && tempo.value != 0 ==> b == tempo.value
    ensures tempo.None? || tempo.value == 0 ==> b == DefaultBudget
  {
    if tempo.None? || tempo.value == 0 then DefaultBudget else tempo.value
  }

  /** A freshly created room: unpinned, no messages, one user, and a budget that is never 0. */
  function NewRoom(id: string, nome: string, tempo: Option<int>, criador: Creator): (r: Room)
    ensures r.id == id && r.nome == nome && r.criador == criador
    ensures !r.fixa && r.mensagens == [] && r.usuarios == 1 && r.tempoAutoDestruicao != 0
  {
    Room(id, nome, 1, NewRoomPreview, Budget(tempo), criador, false, [])
  }

  /** POST /api/salas with a fresh `id`. */
  function Create(rooms: seq<Room>, id: string, nome: Option<string>, tempo: Option<int>, criador: Creator)
    : (r: (Reply<Summary>, seq<Room>))
    ensures r.0.Ok? <==> Truthy(nome)
    ensures r.0.Err? ==> r.0.status == BadRequest && r.1 == rooms
    ensures r.0.Ok? ==> r.1 == rooms + [NewRoom(id, nome.value, tempo, criador)] && r.0.value == Summarize(r.1[|rooms|])
  {
    if !Truthy(nome) then (Err(BadRequest, ErrNomeObrigatorio), rooms)
    else
      var sala := NewRoom(id, nome.value, tempo, criador);
      (Ok(Summarize(sala)), rooms + [sala])
  }

  /** DELETE /api/salas/:id with the request body's `criador`. */
  function Delete(rooms: seq<Room>, id: string, criador: Creator): (r: (Reply<()>, seq<Room>))
    ensures r.0.Err? ==> r.1 == rooms && r.0.status != BadRequest
    ensures r.0.Err? && r.0.status == NotFound <==> id !in Ids(rooms)
    ensures r.0.Ok? ==> |r.1| == |rooms| - 1 && multiset(r.1) <= multiset(rooms)
  {
    var k := FindIndex(rooms, id);
    if k == -1 then (Err(NotFound, ErrSalaNaoEncontrada), rooms)
    else if rooms[k].criador != criador then (Err(Forbidden, ErrApenasCriador), rooms)
    else if rooms[k].fixa then (Err(Forbidden, ErrSalaOficial), rooms)
    else
      assert rooms == rooms[..k] + [rooms[k]] + rooms[k + 1..];
      (Ok(()), rooms[..k] + rooms[k + 1..])
  }

  /** GET /api/salas/:id/mensagens. */
  function Read(rooms: seq<Room>, id: string): (r: Reply<seq<Message>>)
    ensures r.Err? <==> id !in Ids(rooms)
    ensures r.Err? ==> r.status == NotFound
    ensures r.Ok? ==> exists i :: 0 <= i < |rooms| && rooms[i].id == id && r.value == rooms[i].mensagens
  {
    var k := FindIndex(rooms, id);
    if k == -1 then Err(NotFound, ErrSalaNaoEncontrada) else Ok(rooms[k].mensagens)
  }

  /** POST /api/salas/:id/mensagens with a fresh message id and the server's clock reading. */
  function Post(rooms: seq<Room>, id: string, msgId: string, tempo: string,
                remetente: Option<string>, texto: Option<string>): (r: (Reply<Message>, seq<Room>))
    ensures |r.1| == |rooms|
    ensures r.0.Err? ==> r.1 == rooms
    ensures r.0.Err? ==> (r.0.status == BadRequest <==> !Truthy(remetente) || !Truthy(texto))
    ensures r.0.Ok? <==> Truthy(remetente) && Truthy(texto) && id in Ids(rooms)
    ensures r.0.Ok? ==> !r.0.value.sistema && r.0.value.texto == texto.value && r.0.value.remetente == remetente.value
  {
    if !Truthy(remetente) || !Truthy(texto) then (Err(BadRequest, ErrCamposObrigatorios), rooms)
    else
      var k := FindIndex(rooms, id);
      if k == -1 then (Err(NotFound, ErrSalaNaoEncontrada), rooms)
      else
        var m := Message(msgId, remetente.value, texto.value, tempo, false);
        var sala := rooms[k];
        (Ok(m), rooms[k := sala.(mensagens := sala.mensagens + [m], preview := Preview(texto.value))])
  }

  /** One request to the store, with the fresh ids and clock readings it will use. */
  datatype Request =
    | ListRequest
    | CreateRequest(newId: string, nome: Option<string>, tempo: Option<int>, criador: Creator)
    | DeleteRequest(roomId: string, criador: Creator)
    | ReadRequest(roomId: string)
    | PostRequest(roomId: string, msgId: string, sentAt: string, remetente: Option<string>, texto: Option<string>)

  /** The room list after one request. */
  function Step(rooms: seq<Room>, req: Request): seq<Room>
  {
    match req
    case ListRequest => rooms
    case CreateRequest(id, nome, tempo, criador) => Create(rooms, id, nome, tempo, criador).1
    case DeleteRequest(id, criador) => Delete(rooms, id, criador).1
    case ReadRequest(_) => rooms
    case PostRequest(id, msgId, sentAt, remetente, texto) => Post(rooms, id, msgId, sentAt, remetente, texto).1
  }

  /** The room list after the requests, handled one at a time in order. */
  function Run(rooms: seq<Room>, reqs: seq<Request>): seq<Room>
    decreases |reqs|
  {
    if reqs == [] then rooms else Run(Step(rooms, reqs[0]), reqs[1..])
  }

  /** Every create request in the run uses an id no room has when it is handled. */
  predicate FreshIds(rooms: seq<Room>, reqs: seq<Request>)
    decreases |reqs|
  {
    reqs == [] ||
    ((reqs[0].CreateRequest? ==> reqs[0].newId !in Ids(rooms)) && FreshIds(Step(rooms, reqs[0]), reqs[1..]))
  }

  /** The message one request adds to the room with this id: one for a valid post addressed to it, none otherwise. */
  function AcceptedBy(req: Request, id: string): seq<Message>
  {
    if req.PostRequest? && req.roomId == id && Truthy(req.remetente) && Truthy(req.texto)
    then [Message(req.msgId, req.remetente.value, req.texto.value, req.sentAt, false)]
    else []
  }

  /** The messages the requests add to the room with this id, in request order. */
  function Accepted(reqs: seq<Request>, id: string): seq<Message>
    decreases |reqs|
  {
    if reqs == [] then [] else AcceptedBy(reqs[0], id) + Accepted(reqs[1..], id)
  }
}
