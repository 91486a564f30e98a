/** The payment handlers of the server (server/controllers/paymentController.js
    over server/models/Order.model.js): creating an order with the payment
    gateway, and verifying a payment, which marks the order paid or failed and
    may open a public share link for a résumé. The gateway's reply, the HMAC
    of the key secret, the random bytes and the clock are parameters. */
module Payment {
  import opened Common
  import opened ResumeServer

  /** The `status` enum of an order. */
  datatype Status = Created | Paid | Failed {
    function Name(): string {
      match this
      case Created => "created"
      case Paid => "paid"
      case Failed => "failed"
    }
  }

  /** A stored order. */
  datatype Order = Order(userId: string, orderId: string, paymentId: Option<string>, signature: Option<string>,
                         amount: int, status: Status, receipt: string)

  /** What the gateway is asked for. */
  datatype OrderOptions = OrderOptions(amount: int, currency: string, receipt: string)

  /** The parts of the gateway's reply that are stored. */
  datatype GatewayOrder = GatewayOrder(id: string, amount: int, receipt: string)

  // ---------------------------------------------------------------------------
  // Share tokens
  // ---------------------------------------------------------------------------

  predicate IsLowerHex(c: char) {
    ('0' <= c <= '9') || ('a' <= c <= 'f')
  }

  /** The hex digit of a value below 16, lower case as Node writes it. */
  function HexChar(n: nat): (c: char)
    requires n < 16
    ensures IsLowerHex(c)
  {
    if n < 10 then ('0' as int + n) as char else ('a' as int + n - 10) as char
  }

  lemma HexCharInjective(n: nat, m: nat)
    requires n < 16 && m < 16 && HexChar(n) == HexChar(m)
    ensures n == m
  {
  }

  /** The two digits of one byte, high nibble first. */
  function ByteHex(x: nat): (h: string)
    requires x < 256
    ensures |h| == 2 && IsLowerHex(h[0]) && IsLowerHex(h[1])
  {
    [HexChar(x / 16), HexChar(x % 16)]
  }

  /** `buffer.toString('hex')`: two digits per byte. */
  function ToHex(bytes: seq<bv8>): (h: string)
    ensures |h| == 2 * |bytes|
    decreases |bytes|
  {
    if bytes == [] then []
    else ByteHex(bytes[0] as nat) + ToHex(bytes[1..])
  }

  /** Every digit is a lower-case hex digit. */
  lemma {:induction false} ToHexDigits(bytes: seq<bv8>)
    ensures forall k :: 0 <= k < |ToHex(bytes)| ==> IsLowerHex(ToHex(bytes)[k])
    decreases |bytes|
  {
    if bytes != [] {
      ToHexDigits(bytes[1..]);
      var h, t := ByteHex(bytes[0] as nat), ToHex(bytes[1..]);
      assert ToHex(bytes) == h + t;
      forall k | 0 <= k < |h + t|
        ensures IsLowerHex((h + t)[k])
      {
        if k >= 2 {
          assert (h + t)[k] == t[k - 2];
        }
      }
    }
  }

  /** `generateShareToken`: 32 random bytes give 64 lower-case hex digits. */
  function ShareToken(random: seq<bv8>): (t: string)
    requires |random| == 32
    ensures |t| == 64 && forall k :: 0 <= k < 64 ==> IsLowerHex(t[k])
  {
    ToHexDigits(random);
    ToHex(random)
  }

  lemma NibblesInjective(x: nat, y: nat)
    requires x / 16 == y / 16 && x % 16 == y % 16
    ensures x == y
  {
    assert x == 16 * (x / 16) + x % 16;
    assert y == 16 * (y / 16) + y % 16;
  }

  /** The two digits of a byte determine it. */
  lemma ByteHexInjective(x: nat, y: nat)
    requires x < 256 && y < 256 && ByteHex(x) == ByteHex(y)
    ensures x == y
  {
    assert ByteHex(x)[0] == ByteHex(y)[0] && ByteHex(x)[1] == ByteHex(y)[1];
    HexCharInjective(x / 16, y / 16);
    HexCharInjective(x % 16, y % 16);
    NibblesInjective(x, y);
  }

  lemma ByteInjective(u: bv8, v: bv8)
    requires ByteHex(u as nat) == ByteHex(v as nat)
    ensures u == v
  {
    ByteHexInjective(u as nat, v as nat);
  }

  /** Different random bytes give different tokens. */
  lemma {:induction false} ToHexInjective(a: seq<bv8>, b: seq<bv8>)
    requires |a| == |b| && ToHex(a) == ToHex(b)
    ensures a == b
    decreases |a|
  {
    if a != [] {
      var x, y := a[0] as nat, b[0] as nat;
      var ta, tb := a[1..], b[1..];
      assert ToHex(a) == ByteHex(x) + ToHex(ta) && ToHex(b) == ByteHex(y) + ToHex(tb);
      assert ByteHex(x) == ToHex(a)[..2] == ToHex(b)[..2] == ByteHex(y);
      ByteInjective(a[0], b[0]);
      assert ToHex(ta) == ToHex(a)[2..] == ToHex(b)[2..] == ToHex(tb);
      ToHexInjective(ta, tb);
      assert a == [a[0]] + ta && b == [b[0]] + tb;
    }
  }

  // ---------------------------------------------------------------------------
  // The order and résumé updates
  // ---------------------------------------------------------------------------

  /** The request sent to the gateway at time `now` (milliseconds): one rupee
      as 100 paise. */
  function Options(now: nat): (o: OrderOptions)
    ensures o.amount == 100 && o.currency == "INR"
    ensures StartsWith(o.receipt, "receipt_") && DigitString(o.receipt[8..]) && IntValue(o.receipt[8..]) == now
  {
    NatToStringDigits(now);
    assert ("receipt_" + NatToString(now))[8..] == NatToString(now);
    OrderOptions(100, "INR", "receipt_" + NatToString(now))
  }

  /** `Order.findOne({ razorpay_order_id })`: the first order with that id. */
  function FindOrder(orders: seq<Order>, id: string): (r: Option<nat>)
    ensures r.Some? ==> r.value < |orders| && orders[r.value].orderId == id
    ensures r.Some? ==> forall j :: 0 <= j < r.value ==> orders[j].orderId != id
    ensures r.None? <==> forall j :: 0 <= j < |orders| ==> orders[j].orderId != id
    decreases |orders|
  {
    if orders == [] then None
    else if orders[0].orderId == id then Some(0)
    else
      var rest := FindOrder(orders[1..], id);
      if rest.Some? then Some(rest.value + 1) else None
  }

  /** The string the gateway signs. */
  function SignedText(orderId: string, paymentId: string): string {
    orderId + "|" + paymentId
  }

  /** An order after a verified payment. */
  function MarkPaid(o: Order, paymentId: string, signature: string): (r: Order)
    ensures r.status == Paid && r.paymentId == Some(paymentId) && r.signature == Some(signature)
    ensures r.userId == o.userId && r.orderId == o.orderId && r.amount == o.amount && r.receipt == o.receipt
  {
    o.(paymentId := Some(paymentId), signature := Some(signature), status := Paid)
  }

  /** An order after a failed verification: only the status changes. */
  function MarkFailed(o: Order): (r: Order)
    ensures r.status == Failed && r == o.(status := Failed)
  {
    o.(status := Failed)
  }

  /** A résumé opened for public viewing under `token` at time `now`. */
  function Shared(r: Resume, token: string, now: int): (s: Resume)
    ensures SharedUnder(s, token) && s.sharedAt == Some(now)
    ensures s.content == r.content && s.userId == r.userId
  {
    r.(shareToken := Some(token), isShared := true, sharedAt := Some(now))
  }

  /** `Resume.findByIdAndUpdate`: a missing id updates nothing. */
  function ShareIn(records: map<string, Resume>, id: string, token: string, now: int): (m: map<string, Resume>)
    ensures m.Keys == records.Keys
    ensures id in records ==> m[id] == Shared(records[id], token, now)
    ensures forall k :: k in records && k != id ==> m[k] == records[k]
  {
    if id in records then records[id := Shared(records[id], token, now)] else records
  }

  /** After sharing, the public lookup finds the résumé under the new token. */
  lemma ShareOpensLink(records: map<string, Resume>, id: string, token: string, now: int)
    requires id in records
    ensures var m := ShareIn(records, id, token, now);
      exists k :: k in m && SharedUnder(m[k], token)
  {
    var m := ShareIn(records, id, token, now);
    assert id in m && SharedUnder(m[id], token);
  }

  /** Sharing again replaces the token: the earlier link stops working for
      that résumé. */
  lemma ReshareReplacesToken(r: Resume, t1: string, t2: string, n1: int, n2: int)
    requires t1 != t2
    ensures Shared(Shared(r, t1, n1), t2, n2) == Shared(r, t2, n2)
    ensures !SharedUnder(Shared(Shared(r, t1, n1), t2, n2), t1)
  {
  }

  /** There is no guard on the earlier status: a paid order that fails a later
      verification is marked failed, and a failed one can still become paid. */
  lemma NoStatusGuard(o: Order, paymentId: string, signature: string)
    ensures MarkFailed(MarkPaid(o, paymentId, signature)).status == Failed
    ensures MarkPaid(MarkFailed(o), paymentId, signature).status == Paid
  {
  }

  /** The orders collection, next to the résumé collection it may update. */
  class PaymentController {
    var orders: seq<Order>
    const resumes: ResumeStore

    constructor (resumes: ResumeStore)
      ensures orders == [] && this.resumes == resumes
    {
      orders := [];
      this.resumes := resumes;
    }

    /** `createOrder`: asks the gateway for an order and, when it answers,
        stores it as created for the requester. */
    method CreateOrder(user: string, now: nat, reply: Option<GatewayOrder>) returns (request: OrderOptions, status: int)
      modifies this
      ensures request == Options(now)
      ensures reply.None? ==> status == 500 && orders == old(orders)
      ensures reply.Some? ==>
        && status == 200
        && orders == old(orders) + [Order(user, reply.value.id, None, None, reply.value.amount, Created, reply.value.receipt)]
    {
      request := Options(now);
      if reply.None? {
        return request, 500;
      }
      var g := reply.value;
      orders := orders + [Order(user, g.id, None, None, g.amount, Created, g.receipt)];
      status := 200;
    }

    /** `verifyPayment`. `hmac` is the key secret's HMAC-SHA256 in hex, `random`
        the 32 bytes a share token is made from. */
    method VerifyPayment(orderId: string, paymentId: string, signature: string, resumeId: Field,
                         hmac: string -> string, random: seq<bv8>, now: int)
      returns (status: int, token: Option<string>)
      requires |random| == 32
      modifies this, resumes
      ensures var i := FindOrder(old(orders), orderId);
        i.None? ==> status == 404 && token.None? && orders == old(orders) && resumes.records == old(resumes.records)
      ensures var i := FindOrder(old(orders), orderId);
        i.Some? && hmac(SignedText(orderId, paymentId)) == signature ==>
          && status == 200
          && orders == old(orders)[i.value := MarkPaid(old(orders)[i.value], paymentId, signature)]
          && (Truthy(resumeId) ==> token == Some(ShareToken(random))
                                   && resumes.records == ShareIn(old(resumes.records), resumeId.s, ShareToken(random), now))
          && (!Truthy(resumeId) ==> token.None? && resumes.records == old(resumes.records))
      ensures var i := FindOrder(old(orders), orderId);
        i.Some? && hmac(SignedText(orderId, paymentId)) != signature ==>
          && status == 400 && token.None?
          && orders == old(orders)[i.value := MarkFailed(old(orders)[i.value])]
          && resumes.records == old(resumes.records)
    {
      var expected := hmac(SignedText(orderId, paymentId));
      var found := FindOrder(orders, orderId);
      if found.None? {
        return 404, None;
      }
      var i := found.value;
      if expected == signature {
        orders := orders[i := MarkPaid(orders[i], paymentId, signature)];
        token := None;
        if Truthy(resumeId) {
          var t := ShareToken(random);
          token := Some(t);
          resumes.records := ShareIn(resumes.records, resumeId.s, t, now);
        }
        return 200, token;
      }
      orders := orders[i := MarkFailed(orders[i])];
      return 400, None;
    }
  }
}
