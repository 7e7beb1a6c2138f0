/**
 * The one-time-code field of src/components/auth/code-input.tsx: `length`
 * one-character inputs over a controlled `value`. Every handler copies the
 * slots into a fresh list, pads it with empty slots, writes one slot and
 * joins the list back into the value it hands to `onChange`.
 */
module CodeInputField {
  import opened Wrappers
  import opened Strings

  /** `s.split("")`: one single-character string per character. */
  function Singles(s: string): (r: seq<string>)
    ensures |r| == |s| && forall k :: 0 <= k < |s| ==> r[k] == [s[k]]
  {
    seq(|s|, k requires 0 <= k < |s| => [s[k]])
  }

  /** `n` empty slots. */
  function Blanks(n: nat): (r: seq<string>)
    ensures |r| == n && forall k :: 0 <= k < n ==> r[k] == ""
  {
    seq(n, _ => "")
  }

  function Min(a: int, b: int): int {
    if a <= b then a else b
  }

  /** The part of `value` the slots show: `value.split("").slice(0, length)`, joined. */
  function Kept(value: string, length: nat): (r: string)
    ensures |r| <= length && r <= value
  {
    value[..Min(|value|, length)]
  }

  /**
   * The value after slot `k` is set to `d` in the padded list: the shown
   * characters before position `k`, then `d`, then those after `k`. A slot
   * past the shown characters is empty, so its content lands right after
   * them; an emptied slot closes up.
   */
  function SetSlot(v: string, k: nat, d: string): (r: string)
    ensures |r| == Min(k, |v|) + |d| + (|v| - Min(k + 1, |v|))
  {
    v[..Min(k, |v|)] + d + v[Min(k + 1, |v|)..]
  }

  /** `inputValue.replace(/\D/g, "").slice(-1)`: the last digit typed, or nothing. */
  function LastDigit(input: string): (r: string)
    ensures |r| <= 1 && AllDigits(r)
    ensures r == [] <==> Digits(input) == []
    ensures r != [] ==> r[0] == Digits(input)[|Digits(input)| - 1]
  {
    var digits := Digits(input);
    if digits == [] then [] else digits[|digits| - 1..]
  }

  /** A key the field reacts to, or any other. */
  datatype Key = Backspace | ArrowLeft | ArrowRight | OtherKey

  /**
   * The field and what it has told its parent. `value` is the controlled
   * value, which the parent replaces by whatever `onChange` hands it (as the
   * verification page does); `focus` is the input that last got focus;
   * `changes` and `completions` record the `onChange` and `onComplete`
   * calls in order.
   */
  class CodeInput {
    const length: nat
    var value: string
    var focus: Option<nat>
    var changes: seq<string>
    var completions: seq<string>

    /** Focus is only ever given to an existing input. */
    ghost predicate Valid()
      reads this
    {
      focus.Some? ==> focus.value < length
    }

    constructor(length: nat, value: string)
      ensures this.length == length && this.value == value
      ensures focus == None && changes == [] && completions == []
      ensures Valid()
    {
      this.length := length;
      this.value := value;
      focus := None;
      changes := [];
      completions := [];
    }

    /** `digits`: the slots shown, at most `length` of them. */
    function Slots(): (r: seq<string>)
      reads this
      ensures |r| <= length && r == Singles(Kept(value, length))
    {
      Singles(value)[..Min(|value|, length)]
    }

    /** `focusInput`: indices outside the field are ignored. */
    method FocusInput(index: int)
      requires Valid()
      modifies this
      ensures Valid()
      ensures focus == (if 0 <= index < length then Some(index as nat) else old(focus))
      ensures value == old(value) && changes == old(changes) && completions == old(completions)
    {
      if index >= 0 && index < length {
        focus := Some(index as nat);
      }
    }

    /** The copy of the slots padded with empty strings up to `length`. */
    method PaddedSlots() returns (newDigits: seq<string>)
      ensures newDigits == Slots() + Blanks(length - |Slots()|)
    {
      newDigits := Slots();
      ghost var shown := |newDigits|;
      while |newDigits| < length
        invariant shown <= |newDigits| <= length
        invariant newDigits == Slots() + Blanks(|newDigits| - shown)
        decreases length - |newDigits|
      {
        newDigits := newDigits + [""];
      }
    }

    /**
     * `handleChange(index, inputValue)`: slot `index` takes the last digit
     * typed. The completion check tests `!newValue.includes("")`, which no
     * string passes, so `onComplete` is never called from here.
     */
    method HandleChange(index: nat, inputValue: string)
      requires Valid() && index < length
      modifies this
      ensures Valid()
      ensures value == SetSlot(Kept(old(value), length), index, LastDigit(inputValue))
      ensures changes == old(changes) + [value]
      ensures focus == (if LastDigit(inputValue) != [] && index < length - 1 then Some(index + 1) else old(focus))
      ensures completions == old(completions)
    {
      var newDigits := WriteSlot(index, LastDigit(inputValue));
      var newValue := value;
      var complete := |newValue| == length && !Contains(newValue, "");
      ChangeNeverCompletes(newValue, length);
      completions := completions + (if complete then [newValue] else []);
    }

    /**
     * `handleChange` with the completion test evidently meant: no slot of
     * `newDigits` is empty. `onComplete` then fires exactly when the new
     * value fills the field.
     */
    method HandleChangeIntended(index: nat, inputValue: string)
      requires Valid() && index < length
      modifies this
      ensures Valid()
      ensures value == SetSlot(Kept(old(value), length), index, LastDigit(inputValue))
      ensures changes == old(changes) + [value]
      ensures focus == (if LastDigit(inputValue) != [] && index < length - 1 then Some(index + 1) else old(focus))
      ensures completions == old(completions) + (if |value| == length then [value] else [])
    {
      ghost var v := Kept(value, length);
      var newDigits := WriteSlot(index, LastDigit(inputValue));
      var newValue := value;
      FilledIffFull(v, length, index, LastDigit(inputValue));
      if |newValue| == length && "" !in newDigits {
        completions := completions + [newValue];
      }
    }

    /**
     * The common part of both: pad the slots, write the digit into slot
     * `index`, hand the joined list to `onChange` and move focus on after a
     * digit.
     */
    method WriteSlot(index: nat, digit: string) returns (newDigits: seq<string>)
      requires Valid() && index < length
      modifies this
      ensures Valid()
      ensures newDigits == (Singles(Kept(old(value), length)) + Blanks(length - |Kept(old(value), length)|))[index := digit]
      ensures value == SetSlot(Kept(old(value), length), index, digit)
      ensures changes == old(changes) + [value]
      ensures focus == (if digit != [] && index < length - 1 then Some(index + 1) else old(focus))
      ensures completions == old(completions)
    {
      newDigits := PaddedSlots();
      newDigits := newDigits[index := digit];
      var newValue := Join(newDigits, "");
      JoinSlots(value, length, index, digit);
      value := newValue;
      changes := changes + [newValue];
      if digit != [] && index < length - 1 {
        FocusInput(index + 1);
      }
    }

    /**
     * `handleKeyDown`: Backspace empties the current slot if it shows a
     * character, else the previous one (moving focus back); the arrows move
     * focus; other keys do nothing.
     */
    method HandleKeyDown(index: nat, key: Key)
      requires Valid() && index < length
      modifies this
      ensures Valid()
      ensures completions == old(completions)
      ensures key == Backspace && index < |Kept(old(value), length)| ==>
        value == SetSlot(Kept(old(value), length), index, "") && changes == old(changes) + [value]
        && focus == old(focus)
      ensures key == Backspace && index >= |Kept(old(value), length)| && index > 0 ==>
        value == SetSlot(Kept(old(value), length), index - 1, "") && changes == old(changes) + [value]
        && focus == Some(index - 1)
      ensures key == Backspace && index >= |Kept(old(value), length)| && index == 0 ==>
        value == old(value) && changes == old(changes) && focus == old(focus)
      ensures key == ArrowLeft ==>
        value == old(value) && changes == old(changes)
        && focus == (if index > 0 then Some(index - 1) else old(focus))
      ensures key == ArrowRight ==>
        value == old(value) && changes == old(changes)
        && focus == (if index + 1 < length then Some(index + 1) else old(focus))
      ensures key == OtherKey ==> value == old(value) && changes == old(changes) && focus == old(focus)
    {
      if key == Backspace {
        var newDigits := PaddedSlots();
        if newDigits[index] != [] {
          newDigits := newDigits[index := ""];
          JoinSlots(value, length, index, "");
          value := Join(newDigits, "");
          changes := changes + [value];
        } else if index > 0 {
          newDigits := newDigits[index - 1 := ""];
          JoinSlots(value, length, index - 1, "");
          value := Join(newDigits, "");
          changes := changes + [value];
          FocusInput(index - 1);
        }
      } else if key == ArrowLeft {
        FocusInput(index - 1);
      } else if key == ArrowRight {
        FocusInput(index + 1);
      }
    }

    /**
     * `handlePaste`: the first `length` digits of the pasted text replace
     * the value, focus goes to the slot after them (or the last one), and
     * `onComplete` fires when they fill the field. Text without digits does
     * nothing.
     */
    method HandlePaste(pastedData: string)
      requires Valid()
      modifies this
      ensures Valid()
      ensures var pasted := Digits(pastedData)[..Min(|Digits(pastedData)|, length)];
        if pasted == [] then
          value == old(value) && changes == old(changes) && focus == old(focus) && completions == old(completions)
        else
          value == pasted && changes == old(changes) + [pasted]
          && focus == Some(Min(|pasted|, length - 1))
          && completions == old(completions) + (if |pasted| == length then [pasted] else [])
    {
      var digits := Digits(pastedData);
      var pastedDigits := digits[..Min(|digits|, length)];
      if pastedDigits != [] {
        value := pastedDigits;
        changes := changes + [pastedDigits];
        FocusInput(Min(|pastedDigits|, length - 1));
        if |pastedDigits| == length {
          completions := completions + [pastedDigits];
        }
      }
    }
  }

  // ---------------------------------------------------------------------------
  // The join of the padded slots

  lemma {:induction false} JoinSingles(s: string)
    ensures Join(Singles(s), "") == s
  {
    if s != [] {
      assert Singles(s) == [[s[0]]] + Singles(s[1..]);
      JoinConcat([[s[0]]], Singles(s[1..]));
      JoinSingles(s[1..]);
    }
  }

  lemma {:induction false} JoinBlanks(n: nat)
    ensures Join(Blanks(n), "") == ""
  {
    if n > 0 {
      assert Blanks(n) == [""] + Blanks(n - 1);
      JoinConcat([""], Blanks(n - 1));
      JoinBlanks(n - 1);
    }
  }

  /**
   * Writing `d` into slot `k` of the padded slots and joining gives
   * `SetSlot` of the shown characters: the characters in front of the slot,
   * `d`, and the characters after it, with the empty slots vanishing.
   */
  lemma JoinSlots(value: string, length: nat, k: nat, d: string)
    requires k < length
    ensures var v := Kept(value, length);
      Join((Singles(v) + Blanks(length - |v|))[k := d], "") == SetSlot(v, k, d)
  {
    var v := Kept(value, length);
    if k < |v| {
      JoinSlotInside(v, length, k, d);
    } else {
      JoinSlotPast(v, length, k, d);
    }
  }

  /** Writing a shown slot: the characters before it, the slot, the characters after it. */
  lemma JoinSlotInside(v: string, length: nat, k: nat, d: string)
    requires k < |v| <= length
    ensures Join((Singles(v) + Blanks(length - |v|))[k := d], "") == SetSlot(v, k, d)
  {
    var padded := (Singles(v) + Blanks(length - |v|))[k := d];
    var tail := Blanks(length - |v|);
    assert padded == Singles(v[..k]) + [d] + (Singles(v[k + 1..]) + tail);
    JoinConcat(Singles(v[..k]) + [d], Singles(v[k + 1..]) + tail);
    JoinConcat(Singles(v[..k]), [d]);
    JoinConcat(Singles(v[k + 1..]), tail);
    JoinSingles(v[..k]);
    JoinSingles(v[k + 1..]);
    JoinBlanks(length - |v|);
  }

  /** Writing a slot past the shown characters: they come first, then the slot. */
  lemma JoinSlotPast(v: string, length: nat, k: nat, d: string)
    requires |v| <= k < length
    ensures Join((Singles(v) + Blanks(length - |v|))[k := d], "") == SetSlot(v, k, d)
  {
    var padded := (Singles(v) + Blanks(length - |v|))[k := d];
    assert padded == Singles(v) + Blanks(k - |v|) + [d] + Blanks(length - k - 1);
    JoinConcat(Singles(v) + Blanks(k - |v|) + [d], Blanks(length - k - 1));
    JoinConcat(Singles(v) + Blanks(k - |v|), [d]);
    JoinConcat(Singles(v), Blanks(k - |v|));
    JoinSingles(v);
    JoinBlanks(k - |v|);
    JoinBlanks(length - k - 1);
    assert v[..Min(k, |v|)] == v;
  }

  // ---------------------------------------------------------------------------
  // What the handlers guarantee

  /** A typed or cleared slot never makes the value longer than the field. */
  lemma ChangedValueFits(value: string, length: nat, k: nat, d: string)
    requires k < length && |d| <= 1
    ensures |SetSlot(Kept(value, length), k, d)| <= length
  {
  }

  /** Typing a digit into a full field overwrites that one position. */
  lemma TypingIntoFullField(value: string, length: nat, k: nat, d: string)
    requires |value| >= length && k < length && |d| == 1
    ensures var r := SetSlot(Kept(value, length), k, d);
      |r| == length && r[k] == d[0]
      && forall j :: 0 <= j < length && j != k ==> r[j] == value[j]
  {
  }

  /**
   * Clearing a slot that shows a character removes it and closes the gap:
   * the characters after it move one slot to the left.
   */
  lemma ClearingShifts(value: string, length: nat, k: nat)
    requires k < |Kept(value, length)|
    ensures var v := Kept(value, length);
      var r := SetSlot(v, k, "");
      r == v[..k] + v[k + 1..] && |r| == |v| - 1
      && forall j :: k <= j < |r| ==> r[j] == v[j + 1]
  {
  }

  /**
   * A digit typed past the shown characters lands right after them, not in
   * the slot typed into.
   */
  lemma TypingPastTheEnd(value: string, length: nat, k: nat, d: string)
    requires |Kept(value, length)| <= k < length
    ensures SetSlot(Kept(value, length), k, d) == Kept(value, length) + d
  {
  }

  /**
   * The intended completion test: the written slots hold no empty string
   * exactly when the joined value fills the field.
   */
  lemma FilledIffFull(v: string, length: nat, k: nat, d: string)
    requires |v| <= length && k < length && |d| <= 1
    ensures var slots := (Singles(v) + Blanks(length - |v|))[k := d];
      "" !in slots <==> |SetSlot(v, k, d)| == length
  {
    var slots := (Singles(v) + Blanks(length - |v|))[k := d];
    if |SetSlot(v, k, d)| == length {
      forall j | 0 <= j < |slots| ensures slots[j] != "" {
        if j != k {
          assert j < |v|;
        }
      }
    } else if d == "" {
      assert slots[k] == "";
    } else if k < |v| {
      assert slots[|v|] == "";
    } else if k != |v| {
      assert slots[|v|] == "";
    } else {
      assert slots[|v| + 1] == "";
    }
  }

  /** No string passes the completion test of `handleChange` as written. */
  lemma ChangeNeverCompletes(newValue: string, length: nat)
    ensures !(|newValue| == length && !Contains(newValue, ""))
  {
    ContainsEmpty(newValue);
  }

  /**
   * Typing the sixth digit of a six-digit code fills the field, yet the test
   * as written still fails, so the code is not submitted.
   */
  lemma SixthDigitNotSubmitted()
    ensures SetSlot(Kept("12345", 6), 5, LastDigit("6")) == "123456"
    ensures !(|"123456"| == 6 && !Contains("123456", ""))
  {
    assert Digits("6") == "6";
    ChangeNeverCompletes("123456", 6);
  }
}
