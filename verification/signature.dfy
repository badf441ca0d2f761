/** The payment-signature check. The keyed hash (HMAC-SHA256 under the
    gateway secret, hex-encoded) is a parameter `hmac`; only the message it
    is applied to is modelled. */
module Signature {
  import opened Strings

  /** The signed text: order id, a vertical bar, payment id. */
  function Message(orderId: string, paymentId: string): (m: string)
    ensures |m| == |orderId| + 1 + |paymentId|
    ensures m[..|orderId|] == orderId && m[|orderId|] == '|' && m[|orderId| + 1..] == paymentId
  {
    orderId + "|" + paymentId
  }

  /** `m` is the order id, a vertical bar, then the payment id. */
  ghost predicate SignedText(m: string, orderId: string, paymentId: string) {
    |m| == |orderId| + 1 + |paymentId|
    && m[..|orderId|] == orderId && m[|orderId|] == '|' && m[|orderId| + 1..] == paymentId
  }

  /** `verifyPaymentSignature`: the signature is accepted exactly when it is
      the keyed hash of the text made of the order id, a bar and the payment id. */
  function VerifyPaymentSignature(hmac: string -> string, orderId: string, paymentId: string, signature: string): (r: bool)
    ensures r <==> exists m :: SignedText(m, orderId, paymentId) && hmac(m) == signature
  {
    SignedTextIsMessage(orderId, paymentId);
    hmac(Message(orderId, paymentId)) == signature
  }

  /** Only the message has the signed layout. */
  lemma SignedTextIsMessage(orderId: string, paymentId: string)
    ensures forall m :: SignedText(m, orderId, paymentId) <==> m == Message(orderId, paymentId)
  {
    forall m | SignedText(m, orderId, paymentId)
      ensures m == Message(orderId, paymentId)
    {
      assert m == m[..|orderId|] + [m[|orderId|]] + m[|orderId| + 1..];
    }
  }

  /** For one order, the message determines the payment id. */
  lemma MessageDeterminesPayment(orderId: string, p1: string, p2: string)
    requires Message(orderId, p1) == Message(orderId, p2)
    ensures p1 == p2
  {
    assert p1 == Message(orderId, p1)[|orderId| + 1..];
  }

  /** When order ids contain no vertical bar, the message determines both ids. */
  lemma {:induction false} MessageInjective(o1: string, p1: string, o2: string, p2: string)
    requires '|' !in o1 && '|' !in o2
    requires Message(o1, p1) == Message(o2, p2)
    ensures o1 == o2 && p1 == p2
  {
    assert Message(o1, p1) == o1 + ['|'] + p1;
    assert Message(o2, p2) == o2 + ['|'] + p2;
    SplitAtFirst(o1, p1, '|');
    SplitAtFirst(o2, p2, '|');
    assert ([o1] + Split(p1, '|'))[0] == ([o2] + Split(p2, '|'))[0];
    MessageDeterminesPayment(o1, p1, p2);
  }

  /** Under a collision-free keyed hash, a signature issued for one payment of
      an order is rejected for any other payment of the same order. */
  lemma SignatureBindsPayment(hmac: string -> string, orderId: string, p1: string, p2: string, signature: string)
    requires forall m1, m2 :: hmac(m1) == hmac(m2) ==> m1 == m2
    requires VerifyPaymentSignature(hmac, orderId, p1, signature)
    requires p1 != p2
    ensures !VerifyPaymentSignature(hmac, orderId, p2, signature)
  {
    if VerifyPaymentSignature(hmac, orderId, p2, signature) {
      MessageDeterminesPayment(orderId, p1, p2);
    }
  }

  /** With a vertical bar inside an id, two different id pairs share one
      message, so one signature verifies for both whatever the key. */
  lemma BarInIdsCollides(hmac: string -> string, signature: string)
    ensures VerifyPaymentSignature(hmac, "a|b", "c", signature)
            <==> VerifyPaymentSignature(hmac, "a", "b|c", signature)
  {
    assert Message("a|b", "c") == Message("a", "b|c");
  }
}
