/**
 * The action text that pick and unpick write into the event log,
 * "Picked item #<id> for order #<order_id>", with ids rendered in decimal.
 * The events table has no order column, so this text is the only record of
 * the order; ParseAction recovers both ids from it.
 */
module Actions {
  import opened Wrappers

  const ItemPrefix: string := "Picked item #"
  const OrderInfix: string := " for order #"

  predicate IsDigit(c: char) {
    '0' <= c <= '9'
  }

  predicate AllDigits(s: string) {
    forall i :: 0 <= i < |s| ==> IsDigit(s[i])
  }

  /** The number a string of decimal digits denotes, most significant digit first. */
  function DigitsValue(s: string): nat
    requires AllDigits(s)
  {
    if s == [] then 0
    else DigitsValue(s[..|s| - 1]) * 10 + (s[|s| - 1] as int - '0' as int)
  }

  /** The decimal rendering of an id, as a template literal prints a number. */
  function Decimal(n: nat): (s: string)
    ensures 0 < |s| && AllDigits(s)
    ensures DigitsValue(s) == n
    ensures s[0] == '0' ==> s == "0"
  {
    var last := [('0' as int + n % 10) as char];
    if n < 10 then last
    else
      var front := Decimal(n / 10);
      assert (front + last)[..|front + last| - 1] == front;
      front + last
  }

  /**
   * The action text logged by a pick or an unpick of `itemId` for `orderId`;
   * both ids can be read back from it.
   */
  function ActionText(itemId: nat, orderId: nat): (s: string)
    ensures ParseAction(s) == Some((itemId, orderId))
  {
    ParseComposed(Decimal(itemId), Decimal(orderId));
    ItemPrefix + Decimal(itemId) + OrderInfix + Decimal(orderId)
  }

  /** The length of the run of digits that starts `s`. */
  function DigitRun(s: string): (k: nat)
    ensures k <= |s| && AllDigits(s[..k])
    ensures k < |s| ==> !IsDigit(s[k])
  {
    if s != [] && IsDigit(s[0]) then
      var k' := DigitRun(s[1..]);
      assert s[..1 + k'] == [s[0]] + s[1..][..k'];
      1 + k'
    else 0
  }

  /** Reads the item id and the order id back out of an action text. */
  function ParseAction(s: string): Option<(nat, nat)> {
    if |s| < |ItemPrefix| || s[..|ItemPrefix|] != ItemPrefix then None
    else
      var rest := s[|ItemPrefix|..];
      var k := DigitRun(rest);
      var tail := rest[k..];
      if k == 0 || |tail| < |OrderInfix| || tail[..|OrderInfix|] != OrderInfix then None
      else
        var last := tail[|OrderInfix|..];
        if last == [] || !AllDigits(last) then None
        else Some((DigitsValue(rest[..k]), DigitsValue(last)))
  }

  /** A run of digits followed by a non-digit ends exactly where the digits end. */
  lemma DigitRunOfDigits(d: string, t: string)
    requires AllDigits(d) && t != [] && !IsDigit(t[0])
    ensures DigitRun(d + t) == |d|
  {
    var s := d + t;
    assert s[|d|] == t[0];
  }

  /** Slicing a concatenation at the seam gives back its two parts. */
  lemma SplitAtSeam(front: string, back: string)
    ensures (front + back)[..|front|] == front && (front + back)[|front|..] == back
  {
  }

  /** An action text built from two digit strings parses back to the numbers they denote. */
  lemma ParseComposed(itemDigits: string, orderDigits: string)
    requires itemDigits != [] && AllDigits(itemDigits)
    requires orderDigits != [] && AllDigits(orderDigits)
    ensures ParseAction(ItemPrefix + itemDigits + OrderInfix + orderDigits) ==
      Some((DigitsValue(itemDigits), DigitsValue(orderDigits)))
  {
    var tail := OrderInfix + orderDigits;
    var rest := itemDigits + tail;
    assert ItemPrefix + itemDigits + OrderInfix + orderDigits == ItemPrefix + rest;
    SplitAtSeam(ItemPrefix, rest);
    SplitAtSeam(itemDigits, tail);
    SplitAtSeam(OrderInfix, orderDigits);
    assert tail[0] == ' ';
    DigitRunOfDigits(itemDigits, tail);
  }

  /** Two events carry the same action text only for the same item and order. */
  lemma ActionTextInjective(itemId: nat, orderId: nat, itemId': nat, orderId': nat)
    requires ActionText(itemId, orderId) == ActionText(itemId', orderId')
    ensures itemId == itemId' && orderId == orderId'
  {
    assert ParseAction(ActionText(itemId, orderId)) == Some((itemId', orderId'));
  }
}
