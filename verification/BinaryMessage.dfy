/** The notification buffer of src/library/apn_binary_message.c: built once per
    payload, then patched in place for every device token and message id. */
module BinaryMessage {
  import opened Bytes
  import opened Frame
  import Tokens

  const PAYLOAD_MAX_SIZE := 2048

  /** `memcpy` into a buffer */
  method Copy(dst: array<byte>, at: nat, src: seq<byte>)
    requires at + |src| <= dst.Length
    modifies dst
    ensures dst[..] == old(dst[..at]) + src + old(dst[at + |src|..])
  {
    var i := 0;
    while i < |src|
      invariant i <= |src|
      invariant dst[..] == old(dst[..at]) + src[..i] + old(dst[at + i..])
    {
      dst[at + i] := src[i];
      i := i + 1;
    }
  }

  /** Item number and length, the part of an item that precedes its data. */
  method PutHeader(frame: array<byte>, at: nat, kind: byte, length: nat) returns (next: nat)
    requires at + 3 <= frame.Length && length < TWO_16
    modifies frame
    ensures next == at + 3
    ensures frame[..next] == old(frame[..at]) + [kind] + U16(length)
    ensures frame[next..] == old(frame[at + 3..])
  {
    frame[at] := kind;
    next := at + 1;
    assert frame[..next] == old(frame[..at]) + [kind];
    Copy(frame, next, U16(length));
    next := next + 2;
  }

  method PutItem(frame: array<byte>, at: nat, kind: byte, data: seq<byte>) returns (next: nat)
    requires |data| < TWO_16 && at + 3 + |data| <= frame.Length
    modifies frame
    ensures next == at + 3 + |data|
    ensures frame[..next] == old(frame[..at]) + Tlv(kind, data)
  {
    next := PutHeader(frame, at, kind, |data|);
    ghost var before := frame[..next];
    Copy(frame, next, data);
    next := next + |data|;
    assert frame[..next] == before + data;
  }

  /** The buffer around the token bytes, and around the id bytes. */
  lemma TokenSlot(n: Notification, token: seq<byte>)
    requires n.Fits() && |token| == 32
    ensures Encode(n)[8..40] == n.token
    ensures Encode(n.(token := token)) == Encode(n)[..8] + token + Encode(n)[40..]
  {
    var head := [2] + U32(56 + |n.payload|) + [1] + U16(32);
    EncodeSplit(n);
    EncodeSplit(n.(token := token));
    assert |head| == 8;
  }

  lemma EncodeSplit(n: Notification)
    requires n.Fits()
    ensures Encode(n) == [2] + U32(56 + |n.payload|) + [1] + U16(32) + n.token +
                         (Tlv(2, n.payload) + Tlv(3, U32(n.id)) + Tlv(4, U32(n.expiry)) + Tlv(5, [n.priority]))
  {
    assert Tlv(1, n.token) == [1] + U16(32) + n.token;
  }

  lemma IdSlot(n: Notification, id: nat)
    requires n.Fits() && id < TWO_32
    ensures Encode(n)[46 + |n.payload|..50 + |n.payload|] == U32(n.id)
    ensures Encode(n.(id := id)) == Encode(n)[..46 + |n.payload|] + U32(id) + Encode(n)[50 + |n.payload|..]
  {
    var head := [2] + U32(56 + |n.payload|) + Tlv(1, n.token) + Tlv(2, n.payload) + [3] + U16(4);
    EncodeSplitId(n);
    EncodeSplitId(n.(id := id));
    assert |head| == 46 + |n.payload|;
  }

  lemma EncodeSplitId(n: Notification)
    requires n.Fits()
    ensures Encode(n) == [2] + U32(56 + |n.payload|) + Tlv(1, n.token) + Tlv(2, n.payload) + [3] + U16(4) + U32(n.id) +
                         (Tlv(4, U32(n.expiry)) + Tlv(5, [n.priority]))
  {
    hide U32;
    assert Tlv(3, U32(n.id)) == [3] + U16(4) + U32(n.id);
  }

  class Message {
    var message: array<byte>
    var size: nat
    var tokenPosition: nat
    var idPosition: nat
    var tokenHex: Option<string>

    /** The notification the buffer holds. */
    ghost var content: Notification

    ghost predicate Valid()
      reads this, message
    {
      && content.Fits()
      && message[..] == Encode(content)
      && size == message.Length
      && tokenPosition == 8
      && idPosition == 46 + |content.payload|
      && (tokenHex.Some? ==> Tokens.Valid(tokenHex.value) && content.token == Tokens.Binary(tokenHex.value))
    }

    /** `apn_create_binary_message`; the token bytes keep what the allocated memory held. */
    constructor (json: seq<byte>, expiry: int, priority: byte)
      requires |json| <= PAYLOAD_MAX_SIZE
      ensures Valid() && fresh(message) && tokenHex == None
      ensures content == Notification(content.token, json, 0, expiry % TWO_32, priority)
    {
      hide U32;
      var frameSize := 3 * 5 + Tokens.BINARY_SIZE + |json| + 4 + 4 + 1;
      var frame := new byte[frameSize];
      var at := PutHeader(frame, 0, 1, Tokens.BINARY_SIZE);
      at := at + Tokens.BINARY_SIZE;
      ghost var n := Notification(frame[3..35], json, 0, expiry % TWO_32, priority);
      assert frame[..at] == Tlv(1, n.token);
      at := PutItem(frame, at, 2, json);
      at := PutItem(frame, at, 3, U32(0));
      at := PutItem(frame, at, 4, U32(expiry % TWO_32));
      at := PutItem(frame, at, 5, [priority]);
      assert at == frameSize && frame[..at] == frame[..] == Body(n);

      var buffer := new byte[frameSize + 5];
      buffer[0] := 2;
      Copy(buffer, 1, U32(frameSize));
      assert buffer[..5] == [2] + U32(frameSize);
      Copy(buffer, 5, frame[..]);
      assert buffer[..] == Encode(n);

      message, size, content, tokenHex := buffer, frameSize + 5, n, None;
      tokenPosition := 5 + 3;
      idPosition := 5 + 3 + (Tokens.BINARY_SIZE + 3 * 2 + |json|);
    }

    /** `apn_binary_message_set_id` */
    method SetId(id: nat)
      requires Valid() && id < TWO_32
      modifies message, `content
      ensures Valid() && content == old(content).(id := id)
    {
      IdSlot(content, id);
      Copy(message, idPosition, U32(id));
      content := content.(id := id);
    }

    /** `apn_binary_message_set_token_hex`: a malformed token is refused and leaves the previous one in place. */
    method SetTokenHex(token: string) returns (ok: bool)
      requires Valid()
      modifies message, `content, `tokenHex
      ensures Valid()
      ensures ok <==> Tokens.Valid(token)
      ensures ok ==> content == old(content).(token := Tokens.Binary(token)) && tokenHex == Some(token)
      ensures !ok ==> content == old(content) && tokenHex == old(tokenHex) && message[..] == old(message[..])
    {
      ok := Tokens.IsValid(token);
      if !ok { return; }
      var binary := Tokens.HexToBinary(token);
      TokenSlot(content, binary[..]);
      Copy(message, tokenPosition, binary[..]);
      content := content.(token := binary[..]);
      tokenHex := Some(token);
    }
  }

  datatype Patch = Id(id: nat) | Token(token: string)

  /** What a series of patches makes of a notification. */
  function Patched(n: Notification, patches: seq<Patch>): Notification {
    if patches == [] then n
    else
      var m := Patched(n, patches[..|patches| - 1]);
      match patches[|patches| - 1]
      case Id(id) => m.(id := id)
      case Token(token) => if Tokens.Valid(token) then m.(token := Tokens.Binary(token)) else m
  }

  function LastId(patches: seq<Patch>, id: nat): nat {
    if patches == [] then id
    else
      match patches[|patches| - 1]
      case Id(last) => last
      case Token(_) => LastId(patches[..|patches| - 1], id)
  }

  function LastToken(patches: seq<Patch>, token: seq<byte>): seq<byte> {
    if patches == [] then token
    else
      match patches[|patches| - 1]
      case Token(last) => if Tokens.Valid(last) then Tokens.Binary(last) else LastToken(patches[..|patches| - 1], token)
      case Id(_) => LastToken(patches[..|patches| - 1], token)
  }

  /** The last id and the last well-formed token win, the rest of the notification stays. */
  lemma {:induction false} LastPatchWins(n: Notification, patches: seq<Patch>)
    ensures Patched(n, patches) ==
            Notification(LastToken(patches, n.token), n.payload, LastId(patches, n.id), n.expiry, n.priority)
  {
    if patches != [] { LastPatchWins(n, patches[..|patches| - 1]); }
  }

  /** Any series of patches leaves a buffer the gateway reads as the patched notification. */
  method Apply(m: Message, patches: seq<Patch>)
    requires m.Valid() && forall k | 0 <= k < |patches| && patches[k].Id? :: patches[k].id < TWO_32
    modifies m, m.message
    ensures m.Valid() && m.message == old(m.message)
    ensures m.content == Patched(old(m.content), patches)
    ensures Decode(m.message[..]) == [Patched(old(m.content), patches)]
  {
    var k := 0;
    while k < |patches|
      invariant k <= |patches| && m.Valid() && m.message == old(m.message)
      invariant m.content == Patched(old(m.content), patches[..k])
    {
      assert patches[..k + 1][..k] == patches[..k];
      match patches[k] {
        case Id(id) => m.SetId(id);
        case Token(token) => var ok := m.SetTokenHex(token);
      }
      k := k + 1;
    }
    assert patches[..k] == patches;
    DecodeFirst(m.content, []);
    assert Encode(m.content) + [] == Encode(m.content);
  }
}
