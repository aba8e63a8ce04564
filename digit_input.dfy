/** One box of the ticket-number entry: a single-digit field with its change and key handlers. */
module DigitInput {
  import opened Decimal

  /** The callbacks a handler fires, in order, and the `preventDefault` on the key event. */
  datatype Effect = OnChange(value: string, index: int) | FocusNext(index: int) | FocusPrev(index: int) | PreventDefault

  /** `/^\d$/.test(s)`: exactly one ASCII digit. */
  predicate IsSingleDigit(s: string) {
    |s| == 1 && IsDigit(s[0])
  }

  /** `digitList`: "0" through "9", the strip the spinning animation scrolls through. */
  function DigitList(): (r: seq<string>)
    ensures |r| == 10
    ensures forall i :: 0 <= i < 10 ==> IsSingleDigit(r[i]) && ValueOf(r[i]) == i
  {
    seq(10, i requires 0 <= i < 10 => ToDecimal(i))
  }

  /** The digit strip is in ascending order. */
  lemma DigitListAscending(i: nat, j: nat)
    requires i < j < 10
    ensures DigitList()[i][0] < DigitList()[j][0]
  {
    var r := DigitList();
    assert ValueOf(r[i]) == DigitValue(r[i][0]);
    assert ValueOf(r[j]) == DigitValue(r[j][0]);
  }

  class AnimatedDigitInput {
    /** The `inputValue` state. */
    var inputValue: string
    /** The box's position in the number. */
    const index: int

    /** The field holds what the handlers can store: nothing or one digit. */
    ghost predicate Holds()
      reads this
    {
      inputValue == "" || IsSingleDigit(inputValue)
    }

    /** The initial state is the `value` prop. */
    constructor (value: string, index: int)
      ensures inputValue == value && this.index == index
    {
      inputValue := value;
      this.index := index;
    }

    /** The effect on `[value]`: a new prop overwrites the field. */
    method SyncValue(value: string)
      modifies this
      ensures inputValue == value
    {
      inputValue := value;
    }

    /**
     * `handleInputChange`: one digit is taken, reported and moves focus on; an empty value
     * clears the field and is reported; anything else is ignored.
     */
    method HandleInputChange(newValue: string) returns (effects: seq<Effect>)
      modifies this
      ensures IsSingleDigit(newValue) ==>
        inputValue == newValue && effects == [OnChange(newValue, index), FocusNext(index)]
      ensures newValue == "" ==> inputValue == "" && effects == [OnChange("", index)]
      ensures !IsSingleDigit(newValue) && newValue != "" ==> inputValue == old(inputValue) && effects == []
      ensures inputValue == old(inputValue) || Holds()
    {
      if IsSingleDigit(newValue) {
        inputValue := newValue;
        effects := [OnChange(newValue, index), FocusNext(index)];
      } else if newValue == "" {
        inputValue := "";
        effects := [OnChange("", index)];
      } else {
        effects := [];
      }
    }

    /** `handleKeyDown`: Backspace on an empty field moves focus back; nothing else does anything. */
    method HandleKeyDown(key: string) returns (effects: seq<Effect>)
      ensures key == "Backspace" && inputValue == "" ==> effects == [PreventDefault, FocusPrev(index)]
      ensures !(key == "Backspace" && inputValue == "") ==> effects == []
    {
      if key == "Backspace" && inputValue == "" {
        effects := [PreventDefault, FocusPrev(index)];
      } else {
        effects := [];
      }
    }
  }
}
