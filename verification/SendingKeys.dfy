/** Keys of the two sending trees: `Destination::get_prefix`, the request keys
    built by `queue_requests` and their parser `parse_servercurrentevent`. */
module SendingKeys {
  import opened Bytes

  /** Identifiers are kept as the bytes of their text. */
  datatype Destination =
    | Appservice(id: Bytes)
    | Push(user: Bytes, pushkey: Bytes)
    | Normal(server: Bytes)

  datatype SendingEvent =
    | Pdu(pduId: Bytes)
    | Edu(content: Bytes)

  /** A persisted request: the tree key is the destination's prefix followed by
      `id`, which is the PDU id or, for an EDU, a counter. */
  datatype Request = Request(dest: Destination, id: Bytes, event: SendingEvent)

  datatype ParseResult = Ok(dest: Destination, event: SendingEvent) | BadDatabase

  const APPSERVICE_MARK: Byte := 0x2B
  const PUSH_MARK: Byte := 0x24

  /** What the identifier types of the source guarantee: text, and server names
      that do not start with one of the two marks. */
  predicate WellFormed(d: Destination) {
    match d
    case Appservice(id) => Text(id)
    case Push(user, pushkey) => Text(user) && Text(pushkey)
    case Normal(server) =>
      && Text(server)
      && (server != [] ==> server[0] != APPSERVICE_MARK && server[0] != PUSH_MARK)
  }

  function Prefix(d: Destination): Bytes {
    match d
    case Appservice(id) => [APPSERVICE_MARK] + Field(id)
    case Push(user, pushkey) => [PUSH_MARK] + Field(user) + Field(pushkey)
    case Normal(server) => Field(server)
  }

  function Key(r: Request): Bytes {
    Prefix(r.dest) + r.id
  }

  /** The value stored beside the key: EDU content, nothing for a PDU. */
  function Value(e: SendingEvent): Bytes {
    match e
    case Pdu(_) => []
    case Edu(content) => content
  }

  datatype Split = NoSeparator | Split(head: Bytes, tail: Bytes)

  /** The first two parts of `splitn` on the separator. */
  function SplitOnce(s: Bytes): (r: Split)
    ensures r.NoSeparator? <==> Text(s)
    ensures r.Split? ==> Text(r.head) && Field(r.head) + r.tail == s
  {
    if s == [] then NoSeparator
    else if s[0] == SEPARATOR then Split([], s[1..])
    else
      match SplitOnce(s[1..])
      case NoSeparator =>
        assert s == [s[0]] + s[1..];
        NoSeparator
      case Split(head, tail) =>
        assert Field([s[0]] + head) + tail == [s[0]] + (Field(head) + tail) == s;
        Split([s[0]] + head, tail)
  }

  function EventOf(id: Bytes, value: Bytes): SendingEvent {
    if value == [] then Pdu(id) else Edu(value)
  }

  function ParseAppservice(rest: Bytes, value: Bytes): ParseResult {
    match SplitOnce(rest)
    case NoSeparator => BadDatabase
    case Split(server, event) => Ok(Appservice(server), EventOf(event, value))
  }

  function ParsePush(rest: Bytes, value: Bytes): ParseResult {
    match SplitOnce(rest)
    case NoSeparator => BadDatabase
    case Split(user, rest') =>
      match SplitOnce(rest')
      case NoSeparator => BadDatabase
      case Split(pushkey, event) => Ok(Push(user, pushkey), EventOf(event, value))
  }

  function ParseNormal(key: Bytes, value: Bytes): ParseResult {
    match SplitOnce(key)
    case NoSeparator => BadDatabase
    case Split(server, event) => Ok(Normal(server), EventOf(event, value))
  }

  function Parse(key: Bytes, value: Bytes): ParseResult {
    if key != [] && key[0] == APPSERVICE_MARK then ParseAppservice(key[1..], value)
    else if key != [] && key[0] == PUSH_MARK then ParsePush(key[1..], value)
    else ParseNormal(key, value)
  }

  lemma SplitOnceOfField(a: Bytes, x: Bytes)
    requires Text(a)
    ensures SplitOnce(Field(a) + x) == Split(a, x)
  {
    var s := Field(a) + x;
    assert s[|a|] == SEPARATOR;
    var r := SplitOnce(s);
    FieldSplitsUniquely(a, x, r.head, r.tail);
  }

  lemma PushRoundTrip(user: Bytes, pushkey: Bytes, id: Bytes, value: Bytes)
    requires Text(user) && Text(pushkey)
    ensures ParsePush(Field(user) + (Field(pushkey) + id), value) == Ok(Push(user, pushkey), EventOf(id, value))
  {
    SplitOnceOfField(user, Field(pushkey) + id);
    SplitOnceOfField(pushkey, id);
  }

  /** A destination's keys, with the mark that opens them split off. */
  lemma KeyShape(d: Destination, id: Bytes)
    ensures match d
            case Appservice(server) => Prefix(d) + id == [APPSERVICE_MARK] + (Field(server) + id)
            case Push(user, pushkey) => Prefix(d) + id == [PUSH_MARK] + (Field(user) + (Field(pushkey) + id))
            case Normal(server) => Prefix(d) + id == Field(server) + id
  {
    match d
    case Appservice(server) =>
      assert Prefix(d) + id == [APPSERVICE_MARK] + (Field(server) + id);
    case Push(user, pushkey) =>
      assert Prefix(d) + id == [PUSH_MARK] + (Field(user) + (Field(pushkey) + id));
    case Normal(_) =>
  }

  lemma NormalKeyHasNoMark(server: Bytes, id: Bytes)
    requires WellFormed(Normal(server))
    ensures Field(server) + id != []
    ensures (Field(server) + id)[0] != APPSERVICE_MARK && (Field(server) + id)[0] != PUSH_MARK
  {
    assert (Field(server) + id)[0] == if server == [] then SEPARATOR else server[0];
  }

  /** Reading back the key of any well-formed destination gives it back. */
  lemma KeyRoundTrip(d: Destination, id: Bytes, value: Bytes)
    requires WellFormed(d)
    ensures Parse(Prefix(d) + id, value) == Ok(d, EventOf(id, value))
  {
    KeyShape(d, id);
    match d
    case Appservice(server) =>
      assert (Prefix(d) + id)[1..] == Field(server) + id;
      SplitOnceOfField(server, id);
    case Push(user, pushkey) =>
      assert (Prefix(d) + id)[1..] == Field(user) + (Field(pushkey) + id);
      PushRoundTrip(user, pushkey, id, value);
    case Normal(server) =>
      NormalKeyHasNoMark(server, id);
      SplitOnceOfField(server, id);
  }

  /** What follows the destination's prefix in a key that parses. */
  function IdOf(key: Bytes): (id: Bytes)
    requires Parse(key, []).Ok?
  {
    Parse(key, []).event.pduId
  }

  lemma PushParseShape(rest: Bytes, value: Bytes)
    requires ParsePush(rest, value).Ok?
    ensures ParsePush(rest, []).Ok? && ParsePush(rest, []).event.Pdu?
    ensures ParsePush(rest, value).dest.Push? && WellFormed(ParsePush(rest, value).dest)
    ensures var d, id := ParsePush(rest, value).dest, ParsePush(rest, []).event.pduId;
            && rest == Field(d.user) + (Field(d.pushkey) + id)
            && ParsePush(rest, value).event == EventOf(id, value)
  {
  }

  /** Every key that parses is the key of a well-formed destination, so the
      parser and the key builder are inverse to each other. */
  lemma ParsedKeyIsRequestKey(key: Bytes, value: Bytes)
    requires Parse(key, value).Ok?
    ensures Parse(key, []).Ok?
    ensures WellFormed(Parse(key, value).dest)
    ensures key == Prefix(Parse(key, value).dest) + IdOf(key)
    ensures Parse(key, value).event == EventOf(IdOf(key), value)
  {
    if key != [] && key[0] == APPSERVICE_MARK {
      var s := SplitOnce(key[1..]);
      KeyShape(Appservice(s.head), s.tail);
      assert key == [APPSERVICE_MARK] + key[1..];
    } else if key != [] && key[0] == PUSH_MARK {
      PushParseShape(key[1..], value);
      KeyShape(ParsePush(key[1..], value).dest, IdOf(key));
      assert key == [PUSH_MARK] + key[1..];
    } else {
      var s := SplitOnce(key);
      assert s.head != [] ==> key[0] == s.head[0];
    }
  }

  /** A key lies under a destination's prefix only if it is that destination's:
      a prefix scan never sees another destination's requests. */
  lemma PrefixSeparatesDestinations(d: Destination, e: Destination, id: Bytes)
    requires WellFormed(d) && WellFormed(e)
    requires Prefix(d) <= Prefix(e) + id
    ensures d == e
  {
    var key := Prefix(e) + id;
    assert key == Prefix(d) + key[|Prefix(d)|..];
    KeyRoundTrip(d, key[|Prefix(d)|..], []);
    KeyRoundTrip(e, id, []);
  }

  /** A request whose stored form reads back as itself. */
  predicate Faithful(r: Request) {
    && WellFormed(r.dest)
    && (r.event.Pdu? ==> r.event.pduId == r.id)
    && (r.event.Edu? ==> r.event.content != [])
  }

  /** The stored form keeps the event exactly when a PDU is keyed by its id and
      an EDU has content: an empty EDU would come back as a PDU. */
  lemma EventSurvivesStorage(r: Request)
    requires WellFormed(r.dest)
    ensures Parse(Key(r), Value(r.event)) == Ok(r.dest, r.event) <==> Faithful(r)
  {
    KeyRoundTrip(r.dest, r.id, Value(r.event));
  }

  /** Different faithful requests that share a tree key differ in EDU content. */
  lemma KeyDeterminesRequest(r: Request, q: Request)
    requires Faithful(r) && Faithful(q)
    requires Key(r) == Key(q)
    ensures r.dest == q.dest && r.id == q.id
    ensures Value(r.event) == Value(q.event) ==> r == q
  {
    KeyRoundTrip(r.dest, r.id, Value(r.event));
    KeyRoundTrip(q.dest, q.id, Value(r.event));
    assert r.id == Key(r)[|Prefix(r.dest)|..] == q.id;
  }
}
