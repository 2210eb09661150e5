/** One authorization request: what a server reply decides, and the cell that the first answer fills. */
module AuthContext {
  import opened Options
  import opened Widths
  import LittleEndian

  const OK: int := 0
  const ERROR_SIGNED_OUT: int := ToS32(0x80550006)
  const ERROR_INVALID_ARGUMENT: int := ToS32(0x80550301)
  const ERROR_ABORTED: int := ToS32(0x80550304)
  const ERROR_REQUEST_MAX: int := ToS32(0x80550305)
  const ERROR_REQUEST_NOT_FOUND: int := ToS32(0x80550306)
  const ERROR_INVALID_ID: int := ToS32(0x80550307)
  const ERROR_NO_TOKEN_RECEIVED: int := ToS32(0x80550308)
  const ERROR_SERVICE_DOWN: int := ToS32(0x80550401)
  const ERROR_SERVICE_BUSY: int := ToS32(0x80550402)

  const REPLY_NO_ERROR: u8 := 0
  const REPLY_INVALID_INPUT: u8 := 3
  const REPLY_TOO_SOON: u8 := 4
  const REPLY_UNAUTHORIZED: u8 := 23

  /** The code field of the game's buffer, and the whole buffer. */
  const CODE_SIZE: nat := 129
  const BUFFER_SIZE: nat := 136
  const ISSUER_ID: int := 0x100

  // ---- Replies ----

  datatype AnyOutcome = Fail(error: int) | Code(code: seq<u8>)

  predicate Possible(o: AnyOutcome) {
    match o
    case Fail(e) => e < 0
    case Code(c) => 0 < |c| < CODE_SIZE
  }

  /** What a reply can settle a request with: a real error, or a code that fits with its terminator. */
  type Outcome = o: AnyOutcome | Possible(o) witness Fail(-1)

  function AuthErrorFromReply(error: u8): (e: int)
    ensures e < 0
    ensures e == ERROR_INVALID_ARGUMENT <==> error == REPLY_INVALID_INPUT
    ensures e == ERROR_SIGNED_OUT <==> error == REPLY_UNAUTHORIZED
    ensures e == ERROR_SERVICE_BUSY <==> error == REPLY_TOO_SOON
    ensures e == ERROR_SERVICE_DOWN <==> error !in {REPLY_INVALID_INPUT, REPLY_UNAUTHORIZED, REPLY_TOO_SOON}
  {
    if error == REPLY_INVALID_INPUT then ERROR_INVALID_ARGUMENT
    else if error == REPLY_UNAUTHORIZED then ERROR_SIGNED_OUT
    else if error == REPLY_TOO_SOON then ERROR_SERVICE_BUSY
    else ERROR_SERVICE_DOWN
  }

  /** `body` is a length-prefixed blob holding a message from which the parser recovers `code`. */
  ghost predicate CarriesCode(body: seq<u8>, parse: seq<u8> -> Option<seq<u8>>, code: seq<u8>) {
    exists blob, rest ::
      body == LittleEndian.Encode(|blob|, 4) + blob + rest && |blob| < 0x1_0000_0000 && parse(blob) == Some(code)
  }

  lemma BlobOf(body: seq<u8>, blob: seq<u8>, rest: seq<u8>)
    requires |blob| < 0x1_0000_0000 && body == LittleEndian.Encode(|blob|, 4) + blob + rest
    ensures 4 + |blob| <= |body| && LittleEndian.GetLE32(body, 0) == |blob| && body[4..4 + |blob|] == blob
  {
    var head := LittleEndian.Encode(|blob|, 4);
    hide LittleEndian.Encode, LittleEndian.GetLE32;
    assert |head| == 4;
    assert body[0..4] == head;
    LittleEndian.ReadsBack32(body, 0, |blob|);
  }

  lemma BlobAt(body: seq<u8>)
    requires 4 <= |body| && LittleEndian.GetLE32(body, 0) <= |body| - 4
    ensures var n := LittleEndian.GetLE32(body, 0);
            body == LittleEndian.Encode(n, 4) + body[4..4 + n] + body[4 + n..]
  {
    var n := LittleEndian.GetLE32(body, 0);
    LittleEndian.GetLE32Decodes(body, 0);
    LittleEndian.EncodeDecode(body[0..4]);
    hide LittleEndian.Encode, LittleEndian.GetLE32, LittleEndian.Decode;
    assert body == body[0..4] + body[4..4 + n] + body[4 + n..];
  }

  /** Decoding a reply: a code is delivered exactly when the reply is free of error and carries one of legal length;
      every failure is one of five errors, each for its own kind of reply. */
  method DecodeReply(error: u8, body: seq<u8>, parse: seq<u8> -> Option<seq<u8>>) returns (o: Outcome)
    ensures forall code :: o == Code(code) <==>
              error == REPLY_NO_ERROR && 0 < |code| < CODE_SIZE && CarriesCode(body, parse, code)
    ensures o.Fail? ==>
              && (o.error == ERROR_NO_TOKEN_RECEIVED <==> error == REPLY_NO_ERROR)
              && (o.error == ERROR_INVALID_ARGUMENT <==> error == REPLY_INVALID_INPUT)
              && (o.error == ERROR_SIGNED_OUT <==> error == REPLY_UNAUTHORIZED)
              && (o.error == ERROR_SERVICE_BUSY <==> error == REPLY_TOO_SOON)
              && (o.error == ERROR_SERVICE_DOWN <==>
                    error !in {REPLY_NO_ERROR, REPLY_INVALID_INPUT, REPLY_UNAUTHORIZED, REPLY_TOO_SOON})
  {
    hide LittleEndian.Encode, LittleEndian.GetLE32, CarriesCode;
    if error != REPLY_NO_ERROR {
      return Fail(AuthErrorFromReply(error));
    }
    CodeIsUnique(body, parse);
    if |body| < 4 {
      return Fail(ERROR_NO_TOKEN_RECEIVED);
    }
    var n := LittleEndian.GetLE32(body, 0);
    if |body| - 4 < n {
      return Fail(ERROR_NO_TOKEN_RECEIVED);
    }
    var parsed := parse(body[4..4 + n]);
    if parsed.None? {
      return Fail(ERROR_NO_TOKEN_RECEIVED);
    }
    var code := parsed.value;
    if |code| == 0 || |code| >= CODE_SIZE {
      return Fail(ERROR_NO_TOKEN_RECEIVED);
    }
    o := Code(code);
  }

  lemma CodeIsUnique(body: seq<u8>, parse: seq<u8> -> Option<seq<u8>>)
    ensures forall code :: CarriesCode(body, parse, code) <==>
              && 4 <= |body| && LittleEndian.GetLE32(body, 0) <= |body| - 4
              && parse(body[4..4 + LittleEndian.GetLE32(body, 0)]) == Some(code)
  {
    hide LittleEndian.Encode, LittleEndian.GetLE32;
    forall code | CarriesCode(body, parse, code)
      ensures 4 <= |body| && LittleEndian.GetLE32(body, 0) <= |body| - 4
      ensures parse(body[4..4 + LittleEndian.GetLE32(body, 0)]) == Some(code)
    {
      var blob, rest :|
        body == LittleEndian.Encode(|blob|, 4) + blob + rest && |blob| < 0x1_0000_0000 && parse(blob) == Some(code);
      BlobOf(body, blob, rest);
    }
    if 4 <= |body| && LittleEndian.GetLE32(body, 0) <= |body| - 4 {
      BlobAt(body);
    }
  }

  // ---- The game's buffer ----

  function Padded(code: seq<u8>): (b: seq<u8>)
    requires |code| < CODE_SIZE
    ensures |b| == BUFFER_SIZE && code <= b && forall i :: |code| <= i < |b| ==> b[i] == 0
  {
    code + seq(BUFFER_SIZE - |code|, _ => 0)
  }

  /** What a reader of a NUL-terminated string sees. */
  function CString(b: seq<u8>): seq<u8> {
    if b == [] || b[0] == 0 then [] else [b[0]] + CString(b[1..])
  }

  lemma {:induction false} CStringUpTo(b: seq<u8>, n: nat)
    requires n < |b| && b[n] == 0 && 0 !in b[..n]
    ensures CString(b) == b[..n]
  {
    if n > 0 {
      assert b[0] == b[..n][0];
      assert b[1..][..n - 1] == b[..n][1..];
      CStringUpTo(b[1..], n - 1);
    }
  }

  /** A game that reads its buffer as a string gets the code back. */
  lemma CodeReadsBack(code: seq<u8>)
    requires |code| < CODE_SIZE && 0 !in code
    ensures CString(Padded(code)) == code
  {
    var b := Padded(code);
    assert b[..|code|] == code;
    CStringUpTo(b, |code|);
  }

  class AuthRequestCtx {
    var result: Option<int>
    var authCode: array?<u8>
    var issuerId: array?<int>

    ghost predicate HasBuffer()
      reads this
    {
      && authCode != null && authCode.Length == BUFFER_SIZE
      && (issuerId != null ==> issuerId.Length == 1)
    }

    constructor ()
      ensures result.None? && authCode == null && issuerId == null
    {
      result, authCode, issuerId := None, null, null;
    }

    method SetResult(r: int)
      modifies this`result
      ensures result == if old(result).Some? then old(result) else Some(r)
    {
      if result.Some? {
        return;
      }
      result := Some(r);
    }

    /** Writes the buffer and sets the result, or does neither. */
    method SetAuthorizationCode(code: seq<u8>, issuer: int)
      requires |code| < CODE_SIZE
      requires HasBuffer()
      modifies this`result, authCode, if issuerId == null then {} else {issuerId}
      ensures old(result).Some? ==>
                result == old(result) && unchanged(authCode) && (issuerId != null ==> unchanged(issuerId))
      ensures old(result).None? ==> result == Some(OK) && authCode[..] == Padded(code)
      ensures old(result).None? && issuerId != null ==> issuerId[..] == [issuer]
    {
      if result.Some? {
        return;
      }
      forall i | 0 <= i < BUFFER_SIZE { authCode[i] := 0; }
      forall i | 0 <= i < |code| { authCode[i] := code[i]; }
      assert authCode[..] == Padded(code);
      if issuerId != null {
        issuerId[0] := issuer;
      }
      result := Some(OK);
    }
  }
}
