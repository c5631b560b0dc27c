/**
 The clinician PIN forms of the home page: a buffer of four one-character
 slots, compared after joining with a constant held in the page itself.
 */
module Pin {

  const CorrectPin := "1234"
  const EmptyPin: seq<string> := ["", "", "", ""]
  const IncorrectPinMessage := "Incorrect PIN. Please contact your administrator for access."

  /** `join("")`: the slots concatenated in order. */
  function Join(slots: seq<string>): (s: string)
    ensures |slots| == 0 ==> s == ""
    ensures |slots| > 0 ==> |s| >= |slots[|slots| - 1]|
    ensures (forall k :: 0 <= k < |slots| ==> slots[k] == "") ==> s == ""
  {
    if slots == [] then "" else Join(slots[..|slots| - 1]) + slots[|slots| - 1]
  }

  predicate IsDigit(c: char)
  {
    '0' <= c <= '9'
  }

  /** `value.replace(/\D/g, "")`: the input with every non-digit removed, as
      the input fields pass it on. */
  function DigitsOnly(s: string): (d: string)
    ensures |d| <= |s|
    ensures forall k :: 0 <= k < |d| ==> IsDigit(d[k])
    ensures multiset(d) <= multiset(s)
    ensures forall c :: IsDigit(c) ==> multiset(d)[c] == multiset(s)[c]
  {
    if s == [] then ""
    else
      var init := s[..|s| - 1];
      assert s == init + [s[|s| - 1]];
      DigitsOnly(init) + (if IsDigit(s[|s| - 1]) then [s[|s| - 1]] else "")
  }

  /** `handlePinChange` on the buffer: an input of more than one character is
      ignored; otherwise slot `index` takes the input. */
  function PinChanged(pin: seq<string>, index: nat, value: string): (changed: seq<string>)
    requires index < |pin|
    ensures |changed| == |pin|
    ensures forall k :: 0 <= k < |pin| && k != index ==> changed[k] == pin[k]
    ensures changed[index] == if |value| > 1 then pin[index] else value
  {
    if |value| > 1 then pin else pin[index := value]
  }

  /** One keystroke passes the filter exactly when it is a digit. */
  lemma OneKeystroke(c: char)
    ensures DigitsOnly([c]) == if IsDigit(c) then [c] else ""
  {
    DigitsOnlyAppend([], c);
  }

  /** Four slots, each empty or holding one character. */
  predicate WellShaped(pin: seq<string>)
  {
    |pin| == 4 && forall k :: 0 <= k < 4 ==> |pin[k]| <= 1
  }

  /** Every slot holds a character (`every(digit => digit !== "")`). */
  predicate Filled(pin: seq<string>)
  {
    forall k :: 0 <= k < |pin| ==> pin[k] != ""
  }

  // ---------------------------------------------------------------------------
  // Properties

  /** A change keeps the buffer at four slots of at most one character; a
      rejected input leaves it as it was, an accepted one changes only slot
      `index`. */
  lemma PinChangeKeepsShape(pin: seq<string>, index: nat, value: string)
    requires WellShaped(pin) && index < 4
    ensures WellShaped(PinChanged(pin, index, value))
    ensures |value| > 1 ==> PinChanged(pin, index, value) == pin
    ensures |value| <= 1 ==> PinChanged(pin, index, value)[index] == value
    ensures forall k :: 0 <= k < 4 && k != index ==> PinChanged(pin, index, value)[k] == pin[k]
  {
  }

  /** Filtering to digits is the identity on strings of digits. */
  lemma {:induction false} DigitsOnlyKeepsDigits(s: string)
    requires forall k :: 0 <= k < |s| ==> IsDigit(s[k])
    ensures DigitsOnly(s) == s
    decreases |s|
  {
    if s != [] {
      var init, last := s[..|s| - 1], s[|s| - 1];
      assert s == init + [last];
      DigitsOnlyKeepsDigits(init);
      DigitsOnlyAppend(init, last);
    }
  }

  /** Typing one more character extends the filtered string by that character
      when it is a digit, and leaves it as it was otherwise. */
  lemma DigitsOnlyAppend(s: string, c: char)
    ensures DigitsOnly(s + [c]) == DigitsOnly(s) + (if IsDigit(c) then [c] else "")
  {
    assert (s + [c])[..|s|] == s;
  }

  /** With slots of at most one character, the joined buffer is the correct
      PIN exactly when the slots hold its four digits in order. */
  lemma AcceptedExactly(pin: seq<string>)
    requires WellShaped(pin)
    ensures Join(pin) == CorrectPin <==> pin == ["1", "2", "3", "4"]
  {
    var p0, p1, p2, p3 := pin[..1], pin[..2], pin[..3], pin[..4];
    assert p1[..1] == p0 && p2[..2] == p1 && p3[..3] == p2 && p3 == pin;
    assert p0[..0] == [];
    assert Join(p0) == pin[0];
    assert Join(p1) == pin[0] + pin[1];
    assert Join(p2) == pin[0] + pin[1] + pin[2];
    assert Join(pin) == pin[0] + pin[1] + pin[2] + pin[3];
    if Join(pin) == CorrectPin {
      assert |pin[0]| + |pin[1]| + |pin[2]| + |pin[3]| == 4;
      assert |pin[0]| == 1 && |pin[1]| == 1 && |pin[2]| == 1 && |pin[3]| == 1;
      var joined := pin[0] + pin[1] + pin[2] + pin[3];
      assert pin[0] == joined[0..1] == "1";
      assert pin[1] == joined[1..2] == "2";
      assert pin[2] == joined[2..3] == "3";
      assert pin[3] == joined[3..4] == "4";
      assert pin == [pin[0], pin[1], pin[2], pin[3]];
    }
  }

  /** An accepted buffer is a filled one, so the Enter key, which submits only
      a filled buffer, never blocks a correct PIN. */
  lemma AcceptedIsFilled(pin: seq<string>)
    requires WellShaped(pin) && Join(pin) == CorrectPin
    ensures Filled(pin)
  {
    AcceptedExactly(pin);
  }

  /** Without the one-character rule a wrong buffer could join to the correct
      PIN: the rule of `handlePinChange` is what makes the comparison exact. */
  lemma OverlongSlotsWouldPass()
    ensures Join(["12", "34", "", ""]) == CorrectPin && !WellShaped(["12", "34", "", ""])
  {
    var pin := ["12", "34", "", ""];
    assert pin[..3][..2][..1][..0] == [];
    assert pin[..3][..2][..1] == ["12"];
    assert pin[..3][..2] == ["12", "34"];
    assert pin[..3] == ["12", "34", ""];
    assert Join(["12"]) == "12";
    assert Join(["12", "34"]) == "1234";
    assert Join(["12", "34", ""]) == "1234";
  }
}
