/** The command 2 frame of the legacy binary provider interface, as bytes.
    `Encode` is what the client promises to put on the wire; `Decode` is an independent
    reader of tagged items, the gateway's view of the same bytes. */
module Frame {
  import opened Bytes

  datatype Option<+T> = None | Some(value: T)

  datatype Notification = Notification(token: seq<byte>, payload: seq<byte>, id: nat, expiry: nat, priority: byte)
  {
    /** What fits the fields of a frame. */
    predicate Fits() {
      |token| == 32 && |payload| <= 2048 && id < TWO_32 && expiry < TWO_32
    }
  }

  function Tlv(kind: byte, data: seq<byte>): seq<byte>
    requires |data| < TWO_16
  {
    [kind] + U16(|data|) + data
  }

  function Body(n: Notification): (s: seq<byte>)
    requires n.Fits()
    ensures |s| == 56 + |n.payload|
  {
    Tlv(1, n.token) + Tlv(2, n.payload) + Tlv(3, U32(n.id)) + Tlv(4, U32(n.expiry)) + Tlv(5, [n.priority])
  }

  function Encode(n: Notification): (s: seq<byte>)
    requires n.Fits()
    ensures |s| == 61 + |n.payload|
  {
    [2] + U32(|Body(n)|) + Body(n)
  }

  function Stream(ns: seq<Notification>): seq<byte>
    requires forall k | 0 <= k < |ns| :: ns[k].Fits()
  {
    if ns == [] then [] else Encode(ns[0]) + Stream(ns[1..])
  }

  // ----- the reader

  datatype Item = Item(kind: byte, data: seq<byte>)

  function Items(s: seq<byte>): Option<seq<Item>> {
    if s == [] then Some([])
    else if |s| < 3 then None
    else
      var n := FromU16(s[1..3]);
      if |s| < 3 + n then None
      else
        match Items(s[3 + n..])
        case None => None
        case Some(rest) => Some([Item(s[0], s[3..3 + n])] + rest)
  }

  function Find(items: seq<Item>, kind: byte): Option<seq<byte>> {
    if items == [] then None
    else if items[0].kind == kind then Some(items[0].data)
    else Find(items[1..], kind)
  }

  function FromItems(items: seq<Item>): Option<Notification> {
    match (Find(items, 1), Find(items, 2), Find(items, 3), Find(items, 4), Find(items, 5))
    case (Some(token), Some(payload), Some(id), Some(expiry), Some(priority)) =>
      if |id| == 4 && |expiry| == 4 && |priority| == 1 then
        Some(Notification(token, payload, FromU32(id), FromU32(expiry), priority[0]))
      else
        None
    case _ => None
  }

  function DecodeBody(body: seq<byte>): Option<Notification> {
    match Items(body)
    case None => None
    case Some(items) => FromItems(items)
  }

  /** The complete, well-formed frames at the front of a byte stream. */
  function Decode(s: seq<byte>): seq<Notification>
    decreases |s|
  {
    if |s| < 5 || s[0] != 2 then []
    else
      var n := FromU32(s[1..5]);
      if |s| < 5 + n then []
      else
        match DecodeBody(s[5..5 + n])
        case None => []
        case Some(frame) => [frame] + Decode(s[5 + n..])
  }

  // ----- reading inverts writing

  lemma ItemsTlv(kind: byte, data: seq<byte>, rest: seq<byte>, tail: seq<Item>, items: seq<Item>)
    requires |data| < TWO_16 && Items(rest) == Some(tail) && items == [Item(kind, data)] + tail
    ensures Items(Tlv(kind, data) + rest) == Some(items)
  {
    var s := Tlv(kind, data) + rest;
    U16RoundTrip(|data|);
    assert s[1..3] == U16(|data|);
    assert s[3..3 + |data|] == data;
    assert s[3 + |data|..] == rest;
  }

  function ItemList(n: Notification): seq<Item>
    requires n.Fits()
  {
    [Item(1, n.token), Item(2, n.payload), Item(3, U32(n.id)), Item(4, U32(n.expiry)), Item(5, [n.priority])]
  }

  lemma ItemsBody(n: Notification)
    requires n.Fits()
    ensures Items(Body(n)) == Some(ItemList(n))
  {
    var t5 := Tlv(5, [n.priority]);
    var t4 := Tlv(4, U32(n.expiry)) + t5;
    var t3 := Tlv(3, U32(n.id)) + t4;
    var t2 := Tlv(2, n.payload) + t3;
    assert Body(n) == Tlv(1, n.token) + t2;
    var items := ItemList(n);
    assert t5 + [] == t5;
    ItemsTlv(5, [n.priority], [], [], items[4..]);
    ItemsTlv(4, U32(n.expiry), t5, items[4..], items[3..]);
    ItemsTlv(3, U32(n.id), t4, items[3..], items[2..]);
    ItemsTlv(2, n.payload, t3, items[2..], items[1..]);
    ItemsTlv(1, n.token, t2, items[1..], items);
  }

  lemma BodyRoundTrip(n: Notification)
    requires n.Fits()
    ensures DecodeBody(Body(n)) == Some(n)
  {
    ItemsBody(n);
    ItemsFound(n, ItemList(n));
  }

  lemma ItemsFound(n: Notification, items: seq<Item>)
    requires n.Fits()
    requires items == ItemList(n)
    ensures FromItems(items) == Some(n)
  {
    assert items[1..][1..] == items[2..] && items[2..][1..] == items[3..] && items[3..][1..] == items[4..];
    assert Find(items[4..], 5) == Some([n.priority]);
    assert Find(items[3..], 4) == Some(U32(n.expiry)) && Find(items[3..], 5) == Find(items[4..], 5);
    assert Find(items[2..], 3) == Some(U32(n.id));
    assert forall k: byte | k > 3 :: Find(items[2..], k) == Find(items[3..], k);
    assert forall k: byte | k > 2 :: Find(items[1..], k) == Find(items[2..], k);
    assert forall k: byte | k > 1 :: Find(items, k) == Find(items[1..], k);
    U32RoundTrip(n.id);
    U32RoundTrip(n.expiry);
  }

  /** A frame at the front of a stream is read whole, and reading goes on behind it. */
  lemma DecodeFirst(n: Notification, rest: seq<byte>)
    requires n.Fits()
    ensures Decode(Encode(n) + rest) == [n] + Decode(rest)
  {
    var s := Encode(n) + rest;
    U32RoundTrip(|Body(n)|);
    assert s[1..5] == U32(|Body(n)|);
    assert s[5..5 + |Body(n)|] == Body(n);
    assert s[5 + |Body(n)|..] == rest;
    BodyRoundTrip(n);
  }

  /** A frame that is not complete is not delivered. */
  lemma DecodePartial(n: Notification, k: nat)
    requires n.Fits() && k < |Encode(n)|
    ensures Decode(Encode(n)[..k]) == []
  {
    var s := Encode(n)[..k];
    if |s| >= 5 {
      U32RoundTrip(|Body(n)|);
      assert s[1..5] == U32(|Body(n)|);
    }
  }

  /** The bytes of whole frames, followed by a torn one, are read as exactly the whole frames. */
  lemma {:induction false} DecodeStream(ns: seq<Notification>, tail: seq<byte>)
    requires forall k | 0 <= k < |ns| :: ns[k].Fits()
    requires Decode(tail) == []
    ensures Decode(Stream(ns) + tail) == ns
  {
    hide Encode, Decode;
    if ns == [] {
      assert Stream(ns) + tail == tail;
    } else {
      DecodeStream(ns[1..], tail);
      DecodeFirst(ns[0], Stream(ns[1..]) + tail);
      assert Stream(ns) + tail == Encode(ns[0]) + (Stream(ns[1..]) + tail);
    }
  }

  lemma {:induction false} StreamSnoc(ns: seq<Notification>, n: Notification)
    requires n.Fits() && forall k | 0 <= k < |ns| :: ns[k].Fits()
    ensures Stream(ns + [n]) == Stream(ns) + Encode(n)
  {
    hide Encode;
    if ns == [] {
      assert [n][1..] == [] && Stream([]) == [];
      assert ns + [n] == [n];
      assert Stream([n]) == Encode(n) + [];
    } else {
      StreamSnoc(ns[1..], n);
      assert (ns + [n])[1..] == ns[1..] + [n];
    }
  }

  /** How many frames end within the first `k` bytes. */
  ghost function Whole(ns: seq<Notification>, k: int): (w: nat)
    requires forall i | 0 <= i < |ns| :: ns[i].Fits()
    ensures w <= |ns|
  {
    if ns == [] || k < |Encode(ns[0])| then 0 else 1 + Whole(ns[1..], k - |Encode(ns[0])|)
  }

  /** `Whole` is the number `w` for which the first `w` frames fit into `k` bytes and no more do. */
  lemma {:induction false} WholeMeaning(ns: seq<Notification>, k: nat)
    requires forall i | 0 <= i < |ns| :: ns[i].Fits()
    ensures var w := Whole(ns, k);
            |Stream(ns[..w])| <= k && (w < |ns| ==> k < |Stream(ns[..w + 1])|)
  {
    hide Encode;
    if ns != [] {
      if k < |Encode(ns[0])| {
        StreamLength(ns, 0);
      } else {
        var w := Whole(ns[1..], k - |Encode(ns[0])|);
        WholeMeaning(ns[1..], k - |Encode(ns[0])|);
        StreamLength(ns, w);
        if w + 1 < |ns| { StreamLength(ns, w + 1); }
      }
    }
  }

  lemma StreamLength(ns: seq<Notification>, k: nat)
    requires ns != [] && k <= |ns[1..]| && forall i | 0 <= i < |ns| :: ns[i].Fits()
    ensures |Stream(ns[..k + 1])| == |Encode(ns[0])| + |Stream(ns[1..][..k])|
  {
    assert ns[..k + 1][1..] == ns[1..][..k];
  }

  lemma DecodeNothing()
    ensures Decode([]) == []
  {
  }

  // ----- and reads nothing else

  predicate Short(items: seq<Item>) {
    forall k | 0 <= k < |items| :: |items[k].data| < TWO_16
  }

  function Tlvs(items: seq<Item>): seq<byte>
    requires Short(items)
  {
    if items == [] then [] else Tlv(items[0].kind, items[0].data) + Tlvs(items[1..])
  }

  lemma TlvsCons(item: Item, items: seq<Item>)
    requires Short(items) && |item.data| < TWO_16
    ensures Short([item] + items) && Tlvs([item] + items) == Tlv(item.kind, item.data) + Tlvs(items)
  {
    assert ([item] + items)[1..] == items;
  }

  lemma NoItems()
    ensures Items([]) == Some([]) && Tlvs([]) == []
  {
  }

  lemma ItemsFirst(s: seq<byte>)
    requires s != [] && Items(s).Some?
    ensures |s| >= 3 && |s| >= 3 + FromU16(s[1..3])
    ensures var n := FromU16(s[1..3]);
            Items(s[3 + n..]).Some? && Items(s).value == [Item(s[0], s[3..3 + n])] + Items(s[3 + n..]).value
  {
    hide FromU16;
  }

  lemma {:induction false} ItemsSound(s: seq<byte>)
    requires Items(s).Some?
    ensures Short(Items(s).value) && Tlvs(Items(s).value) == s
  {
    hide FromU16, U16, Items, Tlvs;
    if s == [] {
      NoItems();
    } else {
      ItemsFirst(s);
      var n := FromU16(s[1..3]);
      ItemsSound(s[3 + n..]);
      U16Inverse(s[1..3]);
      TlvsCons(Item(s[0], s[3..3 + n]), Items(s[3 + n..]).value);
      assert s == Tlv(s[0], s[3..3 + n]) + s[3 + n..];
    }
  }

  /** What is read was there: a frame is taken only from command 2, the length of its body, and a body
      that is a list of items with the fields of the notification among them. */
  lemma {:induction false} DecodeSound(s: seq<byte>) returns (items: seq<Item>)
    requires Decode(s) != []
    ensures Short(items) && 5 + |Tlvs(items)| <= |s| && |Tlvs(items)| < TWO_32
    ensures var n, body := Decode(s)[0], Tlvs(items);
            && s[..5 + |body|] == [2] + U32(|body|) + body
            && n.id < TWO_32 && n.expiry < TWO_32
            && Find(items, 1) == Some(n.token) && Find(items, 2) == Some(n.payload)
            && Find(items, 3) == Some(U32(n.id)) && Find(items, 4) == Some(U32(n.expiry))
            && Find(items, 5) == Some([n.priority])
            && Decode(s)[1..] == Decode(s[5 + |body|..])
  {
    var n := FromU32(s[1..5]);
    var body := s[5..5 + n];
    U32Inverse(s[1..5]);
    items := Items(body).value;
    ItemsSound(body);
    FieldsSound(items);
    assert s[..5 + n] == [s[0]] + s[1..5] + body;
    hide Find, Items, FromItems, U32, FromU32, Tlvs;
  }

  lemma FieldsSound(items: seq<Item>)
    requires FromItems(items).Some?
    ensures var n := FromItems(items).value;
            && n.id < TWO_32 && n.expiry < TWO_32
            && Find(items, 1) == Some(n.token) && Find(items, 2) == Some(n.payload)
            && Find(items, 3) == Some(U32(n.id)) && Find(items, 4) == Some(U32(n.expiry))
            && Find(items, 5) == Some([n.priority])
  {
    hide Find, U32, FromU32;
    U32Inverse(Find(items, 3).value);
    U32Inverse(Find(items, 4).value);
    var last := Find(items, 5).value;
    assert last == [last[0]];
  }

  // ----- cuts

  /** Wherever a byte stream is cut, the reader sees exactly the frames that end before the cut. */
  lemma {:induction false} DecodeCut(ns: seq<Notification>, k: nat)
    requires forall i | 0 <= i < |ns| :: ns[i].Fits()
    requires k <= |Stream(ns)|
    ensures Decode(Stream(ns)[..k]) == ns[..Whole(ns, k)]
  {
    hide Encode, Decode;
    DecodeNothing();
    if ns != [] {
      var n, rest, s := ns[0], ns[1..], Stream(ns)[..k];
      if k < |Encode(n)| {
        DecodePartial(n, k);
        assert s == Encode(n)[..k];
      } else {
        var k' := k - |Encode(n)|;
        var cut := Stream(rest)[..k'];
        assert s == Encode(n) + cut;
        assert Decode(cut) == rest[..Whole(rest, k')] by { DecodeCut(rest, k'); }
        assert Decode(s) == [n] + Decode(cut) by { DecodeFirst(n, cut); }
      }
    }
  }
}
