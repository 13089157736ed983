/** The signed tokens that carry a feed position, and those that carry a position in a resource listing. The keyed hash
    and the scope hash are parameters. */
module SyncCursors {
  import opened Entities
  import opened CursorBytes

  type Uuid = s: seq<Byte> | |s| == 16 witness seq(16, _ => 0)

  const NIL: Uuid := seq(16, _ => 0)
  const VERSION: Byte := 1
  const PAYLOAD: nat := 33
  const SIGNATURE: nat := 32
  const LISTING_PAYLOAD: nat := 49
  const AHEAD: int := 5 * 60

  type Mac = seq<Byte> -> seq<Byte>

  ghost predicate IsMac(mac: Mac) {
    forall p :: |mac(p)| == SIGNATURE
  }

  // ---------- feed positions ----------

  function Payload(user: Uuid, sequence: nat, issued: int): (r: seq<Byte>)
    requires sequence < TWO_63 && issued + TWO_63 >= 0 && issued < TWO_63
    ensures |r| == PAYLOAD
  {
    [VERSION] + user + BigEndian(sequence, 8) + BigEndian(Unsigned(issued), 8)
  }

  /** Times are seconds since 1970; the zero time of the language is not among them. */
  function Encode(mac: Mac, user: Uuid, sequence: int, issued: int): Option<string>
    requires sequence < TWO_63 && issued + TWO_63 >= 0 && issued < TWO_63
  {
    if user == NIL || sequence < 0 then None
    else
      var payload := Payload(user, sequence, issued);
      Some(EncodeBase64(payload + mac(payload)))
  }

  /** The buffer is filled at fixed offsets. */
  method EncodeCursor(mac: Mac, user: Uuid, sequence: int, issued: int) returns (cursor: Option<string>)
    requires sequence < TWO_63 && issued + TWO_63 >= 0 && issued < TWO_63
    ensures cursor == Encode(mac, user, sequence, issued)
  {
    if user == NIL || sequence < 0 {
      return None;
    }
    var buffer := new Byte[PAYLOAD](_ => 0);
    buffer[0] := VERSION;
    for i := 0 to 16
      invariant buffer[0] == VERSION
      invariant buffer[1..1 + i] == user[..i]
    {
      buffer[1 + i] := user[i];
    }
    assert user[..16] == user;
    assert buffer[..17] == [VERSION] + user;
    PutUint64(buffer, 17, sequence);
    assert buffer[..25] == [VERSION] + user + BigEndian(sequence, 8);
    PutUint64(buffer, 25, Unsigned(issued));
    assert buffer[..] == Payload(user, sequence, issued);
    cursor := Some(EncodeBase64(buffer[..] + mac(buffer[..])));
  }

  datatype Decoded = Position(sequence: nat, issued: nat) | Invalid

  function Decode(mac: Mac, user: Uuid, cursor: string, now: int): Decoded {
    match DecodeBase64(cursor)
    case None => Invalid
    case Some(bytes) =>
      if |bytes| != PAYLOAD + SIGNATURE then Invalid
      else
        var payload, signature := bytes[..PAYLOAD], bytes[PAYLOAD..];
        if signature != mac(payload) || payload[0] != VERSION then Invalid
        else
          var sequence, issued := FromBigEndian(payload[17..25]), FromBigEndian(payload[25..33]);
          if payload[1..17] != user || sequence >= TWO_63 || issued >= TWO_63 then Invalid
          else if issued > now + AHEAD then Invalid
          else Position(sequence, issued)
  }

  lemma PayloadParts(user: Uuid, sequence: nat, issued: int)
    requires sequence < TWO_63 && issued + TWO_63 >= 0 && issued < TWO_63
    ensures var p := Payload(user, sequence, issued);
            && p[0] == VERSION && p[1..17] == user
            && FromBigEndian(p[17..25]) == sequence && FromBigEndian(p[25..33]) == Unsigned(issued)
  {
    var p := Payload(user, sequence, issued);
    assert p[17..25] == BigEndian(sequence, 8) && p[25..33] == BigEndian(Unsigned(issued), 8);
    PowerOfEight();
    BigEndianRoundTrip(sequence, 8);
    BigEndianRoundTrip(Unsigned(issued), 8);
  }

  /** Decoding a token for its own user gives back sequence and time exactly if it was issued between 1970 and five
      minutes from now; for any other user it is invalid. */
  lemma CursorRoundTrip(mac: Mac, user: Uuid, reader: Uuid, sequence: nat, issued: int, now: int)
    requires IsMac(mac) && user != NIL && sequence < TWO_63 && issued + TWO_63 >= 0 && issued < TWO_63
    ensures Encode(mac, user, sequence, issued).Some?
    ensures Decode(mac, reader, Encode(mac, user, sequence, issued).value, now)
            == if reader == user && 0 <= issued <= now + 300 then Position(sequence, issued) else Invalid
  {
    var payload := Payload(user, sequence, issued);
    var bytes := payload + mac(payload);
    Base64RoundTrip(bytes);
    assert bytes[..PAYLOAD] == payload && bytes[PAYLOAD..] == mac(payload);
    PayloadParts(user, sequence, issued);
  }

  /** A token is accepted only if it is, byte for byte after decoding, one that the server would issue to this very
      user: so without the key no position can be made up. */
  lemma AcceptedIsIssued(mac: Mac, user: Uuid, cursor: string, now: int)
    requires Decode(mac, user, cursor, now).Position?
    ensures var p := Decode(mac, user, cursor, now);
            && p.sequence < TWO_63 && p.issued < TWO_63
            && var payload := Payload(user, p.sequence, p.issued);
               DecodeBase64(cursor) == Some(payload + mac(payload))
  {
    var p := Decode(mac, user, cursor, now);
    var bytes := DecodeBase64(cursor).value;
    var payload := bytes[..PAYLOAD];
    assert bytes == payload + bytes[PAYLOAD..];
    FromBigEndianRoundTrip(payload[17..25]);
    FromBigEndianRoundTrip(payload[25..33]);
    assert payload == [payload[0]] + payload[1..17] + payload[17..25] + payload[25..33];
    assert payload == Payload(user, p.sequence, p.issued);
  }

  // ---------- listing positions ----------

  type Hash = string -> seq<Byte>

  ghost predicate IsHash(hash: Hash) {
    forall s :: |hash(s)| == SIGNATURE
  }

  function ListingPayload(hash: Hash, user: Uuid, scope: string, nanos: int, id: Uuid): (r: seq<Byte>)
    requires |hash(scope)| == SIGNATURE && nanos + TWO_63 >= 0 && nanos < TWO_63
    ensures |r| == LISTING_PAYLOAD
  {
    [VERSION] + user + BigEndian(Unsigned(nanos), 8) + id + hash(scope)[..8]
  }

  function EncodeListing(mac: Mac, hash: Hash, user: Uuid, scope: string, nanos: int, id: Uuid): Option<string>
    requires |hash(scope)| == SIGNATURE && nanos + TWO_63 >= 0 && nanos < TWO_63
  {
    if user == NIL || scope == "" || id == NIL then None
    else
      var payload := ListingPayload(hash, user, scope, nanos, id);
      Some(EncodeBase64(payload + mac(payload)))
  }

  datatype DecodedListing = At(nanos: nat, id: Uuid) | Unusable

  function DecodeListing(mac: Mac, hash: Hash, user: Uuid, scope: string, cursor: string): DecodedListing
    requires |hash(scope)| == SIGNATURE
  {
    match DecodeBase64(cursor)
    case None => Unusable
    case Some(bytes) =>
      if |bytes| != LISTING_PAYLOAD + SIGNATURE then Unusable
      else
        var payload := bytes[..LISTING_PAYLOAD];
        if payload[0] != VERSION || bytes[LISTING_PAYLOAD..] != mac(payload) then Unusable
        else if payload[1..17] != user || payload[41..49] != hash(scope)[..8] then Unusable
        else
          var nanos := FromBigEndian(payload[17..25]);
          if nanos >= TWO_63 then Unusable else At(nanos, payload[25..41])
  }

  lemma ListingParts(hash: Hash, user: Uuid, scope: string, nanos: int, id: Uuid)
    requires |hash(scope)| == SIGNATURE && nanos + TWO_63 >= 0 && nanos < TWO_63
    ensures var p := ListingPayload(hash, user, scope, nanos, id);
            && p[0] == VERSION && p[1..17] == user && p[25..41] == id && p[41..49] == hash(scope)[..8]
            && FromBigEndian(p[17..25]) == Unsigned(nanos)
  {
    var p := ListingPayload(hash, user, scope, nanos, id);
    assert p[17..25] == BigEndian(Unsigned(nanos), 8) && p[25..41] == id && p[41..49] == hash(scope)[..8];
    PowerOfEight();
    BigEndianRoundTrip(Unsigned(nanos), 8);
  }

  /** Decoding a listing token gives back the position exactly if its time is not before 1970, the reader is its user,
      and the scopes share the first eight bytes of their hashes. */
  lemma ListingRoundTrip(mac: Mac, hash: Hash, user: Uuid, reader: Uuid, scope: string, asked: string, nanos: int, id: Uuid)
    requires IsMac(mac) && IsHash(hash) && user != NIL && scope != "" && id != NIL
    requires nanos + TWO_63 >= 0 && nanos < TWO_63
    ensures EncodeListing(mac, hash, user, scope, nanos, id).Some?
    ensures DecodeListing(mac, hash, reader, asked, EncodeListing(mac, hash, user, scope, nanos, id).value)
            == if reader == user && hash(asked)[..8] == hash(scope)[..8] && nanos >= 0 then At(nanos, id) else Unusable
  {
    var payload := ListingPayload(hash, user, scope, nanos, id);
    var bytes := payload + mac(payload);
    Base64RoundTrip(bytes);
    assert bytes[..LISTING_PAYLOAD] == payload && bytes[LISTING_PAYLOAD..] == mac(payload);
    ListingParts(hash, user, scope, nanos, id);
  }
}
