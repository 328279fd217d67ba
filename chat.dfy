/**
 * The values the BurnBox chat server keeps in memory: rooms (`salas`), the
 * messages inside them (`mensagens`), the summaries the room listing sends,
 * and the replies every handler answers with.  Field names follow the JSON
 * keys the server uses.
 */
module Chat {

  datatype Option<T> = None | Some(value: T)

  /** The value of a `criador` field, compared by the server with strict `!==`.
      Seeded rooms hold `null`; a room created without a creator holds
      `undefined`; a deletion request without the field sends `undefined`. */
  datatype Creator = Null | Undefined | Str(s: string)

  datatype Message = Message(
    id: string,
    remetente: string,
    texto: string,
    tempo: string,
    sistema: bool)

  datatype Room = Room(
    id: string,
    nome: string,
    usuarios: int,
    preview: string,
    tempoAutoDestruicao: int,
    criador: Creator,
    fixa: bool,
    mensagens: seq<Message>)

  /** What the listing and the create handler send for a room: every field but the messages. */
  datatype Summary = Summary(
    id: string,
    nome: string,
    usuarios: int,
    preview: string,
    tempoAutoDestruicao: int,
    criador: Creator,
    fixa: bool)

  datatype Status = BadRequest | Forbidden | NotFound

  function Code(s: Status): int
  {
    match s
    case BadRequest => 400
    case Forbidden => 403
    case NotFound => 404
  }

  /** A handler's answer: `sucesso: true` with a payload, or an HTTP status with `erro`. */
  datatype Reply<T> = Ok(value: T) | Err(status: Status, erro: string)

  const PreviewLimit: nat := 50
  const Ellipsis: string := "..."
  const NewRoomPreview: string := "Sala recém-criada"
  const DefaultBudget: int := 360
  /** The online-user count the listing reports; the server never updates it. */
  const UsuariosOnline: int := 28

  const ErrNomeObrigatorio: string := "Nome da sala é obrigatório"
  const ErrSalaNaoEncontrada: string := "Sala não encontrada"
  const ErrApenasCriador: string := "Apenas o criador pode deletar a sala"
  const ErrSalaOficial: string := "Não é possível deletar salas oficiais"
  const ErrCamposObrigatorios: string := "Remetente e texto são obrigatórios"

  /** JavaScript truthiness of an optional string field: present, not null, not empty. */
  predicate Truthy(s: Option<string>)
  {
    s.Some? && s.value != ""
  }

  /** The preview a room shows after a message with this text: the text itself
      up to 50 characters, otherwise its first 50 characters and "...". */
  function Preview(texto: string): (p: string)
    ensures |p| <= PreviewLimit + |Ellipsis|
    ensures |texto| <= PreviewLimit ==> p == texto
    ensures |texto| > PreviewLimit ==>
      |p| == PreviewLimit + |Ellipsis| && p[..PreviewLimit] == texto[..PreviewLimit] && p[PreviewLimit..] == Ellipsis
  {
    if |texto| > PreviewLimit then texto[..PreviewLimit] + Ellipsis else texto
  }

  /** A summary with messages put back: a room. */
  function WithMessages(s: Summary, mensagens: seq<Message>): Room
  {
    Room(s.id, s.nome, s.usuarios, s.preview, s.tempoAutoDestruicao, s.criador, s.fixa, mensagens)
  }

  /** The room as the listing shows it: everything but its messages, so that
      putting the messages back restores the room. */
  function Summarize(sala: Room): (s: Summary)
    ensures WithMessages(s, sala.mensagens) == sala
    ensures forall m :: WithMessages(s, m) == sala.(mensagens := m)
  {
    Summary(sala.id, sala.nome, sala.usuarios, sala.preview, sala.tempoAutoDestruicao, sala.criador, sala.fixa)
  }

  /** The three rooms the server starts with; the two without a `fixa` field are not pinned. */
  function Seed(): (r: seq<Room>)
    ensures |r| == 3 && r[0].id != r[1].id && r[0].id != r[2].id && r[1].id != r[2].id
    ensures r[0].fixa && !r[1].fixa && !r[2].fixa
    ensures forall i :: 0 <= i < |r| ==> r[i].criador == Null && r[i].mensagens == []
  {
    [ Room("sala1", "Chat Geral BurnBox", 15, "Bem-vindo ao chat geral BurnBox!", 0, Null, true, []),
      Room("sala2", "Discussões Livres", 23, "Converse sobre qualquer coisa aqui...", 60, Null, false, []),
      Room("sala3", "Confissões Anônimas", 47, "Compartilhe seus segredos anonimamente...", 60, Null, false, []) ]
  }
}
