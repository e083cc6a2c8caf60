/** The card-form formatters of the payment dialog: the card number in
    groups of four, the `MM/YY` expiry and the three-digit CVV. */
module PaymentModal {
  import opened Text

  /** `value.replace(/\s+/g, '').replace(/[^0-9]/gi, '')`. */
  function CleanDigits(value: string): (v: string)
    ensures v == KeepDigits(value)
  {
    KeepDigitsIgnoresSpaces(value);
    KeepDigits(RemoveSpaces(value))
  }

  /** `(v.match(/\d{4,16}/g) || [])[0] || ''` on a digit string: its first
      16 digits when it has at least 4, and nothing otherwise. */
  function CardDigits(value: string): (m: string)
    ensures var v := KeepDigits(value);
      && (|v| < 4 ==> m == "")
      && (|v| >= 4 ==> 4 <= |m| <= 16 && |m| <= |v| && m == v[..|m|] && (|v| <= 16 ==> m == v) && (|v| > 16 ==> |m| == 16))
  {
    var v := CleanDigits(value);
    if |v| < 4 then "" else Substring(v, 0, 16)
  }

  /** The pieces of the loop: `match.substring(i, i + 4)` for i = 0, 4, …. */
  function Chunks(m: string): (parts: seq<string>)
    ensures parts == [] <==> m == ""
    decreases |m|
  {
    if m == "" then [] else [Substring(m, 0, 4)] + Chunks(if |m| <= 4 then "" else m[4..])
  }

  /** `parts.join(' ')`. */
  function Join(parts: seq<string>): string
  {
    if parts == [] then ""
    else if |parts| == 1 then parts[0]
    else parts[0] + " " + Join(parts[1..])
  }

  /** Groups of four characters separated by single spaces, the last group
      possibly shorter. */
  function Grouped(m: string): string
  {
    if |m| <= 4 then m else m[..4] + " " + Grouped(m[4..])
  }

  /** What `formatCardNumber` returns: the grouped card digits, or the input
      itself when it holds fewer than four digits. */
  function CardNumberFormatted(value: string): string
  {
    var m := CardDigits(value);
    if m == "" then value else Grouped(m)
  }

  /** The `parts` loop joins to the grouped string. */
  lemma {:induction false} JoinChunks(m: string)
    ensures Join(Chunks(m)) == Grouped(m)
    decreases |m|
  {
    if |m| > 4 {
      JoinChunks(m[4..]);
      assert Chunks(m[4..]) != [];
    }
  }

  /** The chunks still to come when the loop has reached offset `i`. */
  function Rest(m: string, i: nat): string
  {
    if i >= |m| then "" else m[i..]
  }

  lemma ChunksStep(m: string, i: nat)
    requires i < |m|
    ensures Chunks(Rest(m, i)) == [Substring(m, i, i + 4)] + Chunks(Rest(m, i + 4))
  {
    var r := m[i..];
    assert Substring(r, 0, 4) == Substring(m, i, i + 4);
    if |r| > 4 {
      assert r[4..] == m[i + 4..];
    }
  }

  /** `formatCardNumber`: the loop that cuts the card digits into groups of
      four, then joins them; the input comes back when there is no group. */
  method FormatCardNumber(value: string) returns (r: string)
    ensures r == CardNumberFormatted(value)
  {
    var match_ := CardDigits(value);
    var parts: seq<string> := [];
    var i := 0;
    while i < |match_|
      invariant i < |match_| + 4
      invariant parts + Chunks(Rest(match_, i)) == Chunks(match_)
      decreases |match_| - i
    {
      ChunksStep(match_, i);
      parts := parts + [Substring(match_, i, i + 4)];
      i := i + 4;
    }
    RestPastEnd(match_, i);
    assert parts == Chunks(match_);
    if |parts| > 0 {
      JoinChunks(match_);
      r := Join(parts);
    } else {
      r := value;
    }
  }

  /** Past the end of the digits no chunk is left. */
  lemma RestPastEnd(m: string, i: nat)
    requires i >= |m|
    ensures Chunks(Rest(m, i)) == []
  {
  }

  /** With fewer than four digits the input is returned as it is, other
      characters included. */
  lemma CardNumberFewDigits(value: string)
    requires |KeepDigits(value)| < 4
    ensures CardNumberFormatted(value) == value
  {
  }

  /** The shape of a grouped string: a space at every fifth position and the
      digits in between, in order. */
  lemma {:induction false} GroupedShape(m: string)
    requires m != ""
    ensures |Grouped(m)| == |m| + (|m| - 1) / 4
    ensures forall k :: 0 <= k < |Grouped(m)| && k % 5 == 4 ==> Grouped(m)[k] == ' '
    ensures forall k :: 0 <= k < |Grouped(m)| && k % 5 != 4 ==> 0 <= k - k / 5 < |m| && Grouped(m)[k] == m[k - k / 5]
    decreases |m|
  {
    if |m| > 4 {
      var rest := m[4..];
      GroupedShape(rest);
      var g := Grouped(m);
      assert g == m[..4] + " " + Grouped(rest);
      forall k | 0 <= k < |g|
        ensures k % 5 == 4 ==> g[k] == ' '
        ensures k % 5 != 4 ==> 0 <= k - k / 5 < |m| && g[k] == m[k - k / 5]
      {
        if k >= 5 {
          assert g[k] == Grouped(rest)[k - 5];
          assert (k - 5) % 5 == k % 5 && (k - 5) / 5 == k / 5 - 1;
        }
      }
    }
  }

  /** Removing the spaces of a grouped digit string gives the digits back. */
  lemma {:induction false} GroupedDigits(m: string)
    requires AllDigits(m)
    ensures KeepDigits(Grouped(m)) == m
    decreases |m|
  {
    if |m| <= 4 {
      KeepDigitsOfDigits(m);
    } else {
      GroupedDigits(m[4..]);
      KeepDigitsAppend(m[..4] + " ", Grouped(m[4..]));
      KeepDigitsAppend(m[..4], " ");
      KeepDigitsOfDigits(m[..4]);
      assert KeepDigits(" ") == "" by { assert !IsDigit(' '); assert " "[1..] == ""; }
      assert m[..4] + m[4..] == m;
    }
  }

  /** From four digits on, the result is at most 19 characters, and its
      digits are the first (at most 16) digits of the input. */
  lemma CardNumberShape(value: string)
    requires |KeepDigits(value)| >= 4
    ensures |CardNumberFormatted(value)| <= 19
    ensures KeepDigits(CardNumberFormatted(value)) == CardDigits(value)
    ensures KeepDigits(CardNumberFormatted(value)) == KeepDigits(value)[..|CardDigits(value)|]
  {
    var m := CardDigits(value);
    GroupedShape(m);
    GroupedDigits(m);
  }

  /** Formatting an already formatted card number changes nothing. */
  lemma CardNumberIdempotent(value: string)
    ensures CardNumberFormatted(CardNumberFormatted(value)) == CardNumberFormatted(value)
  {
    var m := CardDigits(value);
    if m != "" {
      CardNumberShape(value);
      assert KeepDigits(Grouped(m)) == m;
      assert CardDigits(Grouped(m)) == m;
    }
  }

  /** `formatExpiryDate`: the first two digits, a slash and the next at most
      two digits, once there are two digits; the digits alone before that. */
  function ExpiryFormatted(value: string): string
  {
    var v := CleanDigits(value);
    if |v| >= 2 then Substring(v, 0, 2) + "/" + Substring(v, 2, 4) else v
  }

  /** The expiry is at most five characters; its digits are the first (at
      most four) digits of the input, with the slash third once two are typed. */
  lemma ExpiryShape(value: string)
    ensures |ExpiryFormatted(value)| <= 5
    ensures var v := KeepDigits(value); var n := if |v| < 4 then |v| else 4;
      KeepDigits(ExpiryFormatted(value)) == v[..n]
    ensures |KeepDigits(value)| >= 2 ==> ExpiryFormatted(value)[2] == '/'
  {
    var v := KeepDigits(value);
    if |v| >= 2 {
      var n := if |v| < 4 then |v| else 4;
      assert ExpiryFormatted(value) == v[..2] + "/" + v[2..n];
      SlashedDigits(v[..2], v[2..n]);
      assert v[..2] + v[2..n] == v[..n];
    } else {
      KeepDigitsOfDigits(v);
    }
  }

  /** The digits of `a + "/" + b` for digit strings `a` and `b`. */
  lemma SlashedDigits(a: string, b: string)
    requires AllDigits(a) && AllDigits(b)
    ensures KeepDigits(a + "/" + b) == a + b
  {
    var slash := "/";
    assert KeepDigits(slash) == "" by { assert !IsDigit(slash[0]); assert slash[1..] == ""; }
    KeepDigitsAppend(a, slash);
    KeepDigitsOfDigits(a);
    assert KeepDigits(a + slash) == a;
    KeepDigitsAppend(a + slash, b);
    KeepDigitsOfDigits(b);
  }

  /** Formatting an already formatted expiry changes nothing. */
  lemma ExpiryIdempotent(value: string)
    ensures ExpiryFormatted(ExpiryFormatted(value)) == ExpiryFormatted(value)
  {
    ExpiryShape(value);
    var v := KeepDigits(value);
    var r := ExpiryFormatted(value);
    if |v| < 2 {
      KeepDigitsOfDigits(v);
    }
  }

  /** There is no month check: "1399" becomes "13/99". */
  lemma ExpiryAcceptsAnyMonth()
    ensures ExpiryFormatted("1399") == "13/99"
  {
    var s := "1399";
    assert KeepDigits(s[3..]) == "9";
    assert KeepDigits(s[2..]) == "99";
    assert KeepDigits(s[1..]) == "399";
    assert KeepDigits(s) == "1399";
  }

  /** The CVV field: `value.replace(/\D/g, '').substring(0, 3)`. */
  function Cvv(value: string): (r: string)
    ensures |r| <= 3 && AllDigits(r) && |r| <= |KeepDigits(value)|
    ensures r == KeepDigits(value)[..|r|]
    ensures |KeepDigits(value)| >= 3 ==> |r| == 3
    ensures |KeepDigits(value)| < 3 ==> r == KeepDigits(value)
  {
    Substring(KeepDigits(value), 0, 3)
  }

  /** Sanitising a sanitised CVV changes nothing. */
  lemma CvvIdempotent(value: string)
    ensures Cvv(Cvv(value)) == Cvv(value)
  {
    KeepDigitsOfDigits(Cvv(value));
  }
}
