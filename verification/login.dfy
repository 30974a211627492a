/** The v1 Login, a client's first datagram. */
module Logins {
  import opened Varints

  datatype Login = Login(token: seq<byte>, path: seq<byte>, length: nat)

  /** The token of this client, "roflcopter". */
  const TOKEN: seq<byte> := [114, 111, 102, 108, 99, 111, 112, 116, 101, 114]

  function EncodeBytes(bytes: seq<byte>): seq<byte> { Encode(|bytes|) + bytes }

  /** Token, the command byte of an upload request, path and length. */
  function EncodeLogin(login: Login): (r: seq<byte>)
    ensures |r| >= |login.token| + |login.path| + 4
  {
    EncodeBytes(login.token) + ([0] + (EncodeBytes(login.path) + Encode(login.length)))
  }

  /** A whole Login of this client: path "ab", 300 bytes. */
  lemma {:induction false} LoginExample()
    ensures EncodeLogin(Login(TOKEN, [97, 98], 300))
         == [10, 114, 111, 102, 108, 99, 111, 112, 116, 101, 114, 0, 2, 97, 98, 172, 2]
  {
    GuideExamples();
  }

  /** Length-prefixed bytes and what follows them; `None` is a panic. */
  function ReadBytes(s: seq<byte>): (r: Option<(seq<byte>, seq<byte>)>) {
    match ReadOne(s)
    case Value(v, n) => if n + v <= |s| then Some((s[n..n + v], s[n + v..])) else None
    case _ => None
  }

  /** `None` is an error or a panic: either way no upload starts. */
  function DecodeLogin(s: seq<byte>): (r: Option<Login>) {
    match ReadBytes(s)
    case None => None
    case Some((token, rest)) =>
      if rest == [] || rest[0] != 0 then None
      else
        match ReadBytes(rest[1..])
        case None => None
        case Some((path, last)) =>
          match ReadOne(last)
          case Value(length, _) => Some(Login(token, path, length))
          case _ => None
  }

  lemma {:induction false} ReadEncodedBytes(bytes: seq<byte>, rest: seq<byte>)
    requires |bytes| < U64_LIMIT
    ensures ReadBytes(EncodeBytes(bytes) + rest) == Some((bytes, rest))
  {
    var s, n := EncodeBytes(bytes) + rest, |Encode(|bytes|)|;
    assert s == Encode(|bytes|) + (bytes + rest);
    ReadEncoded(|bytes|, bytes + rest);
    assert s[n..n + |bytes|] == bytes && s[n + |bytes|..] == rest;
  }

  /** The server learns the client's token, path and file length. */
  lemma {:induction false} LoginRoundTrip(login: Login)
    requires |login.token| < U64_LIMIT && |login.path| < U64_LIMIT && login.length < U64_LIMIT
    ensures DecodeLogin(EncodeLogin(login)) == Some(login)
  {
    var last := Encode(login.length);
    var rest := [0] + (EncodeBytes(login.path) + last);
    ReadEncodedBytes(login.token, rest);
    assert rest[1..] == EncodeBytes(login.path) + last;
    ReadEncodedBytes(login.path, last);
    assert last + [] == last;
    ReadEncoded(login.length, []);
  }
}
