/**
 * The six-slot one-time-password entry form: each slot holds the empty
 * string or one digit, typing advances the focus, Backspace on an empty
 * slot moves it back, and submitting hands the joined code to the parent
 * only when all six digits are present.
 */
module OtpForm {
  import opened Wrappers

  const Slots := 6
  const ErrorMessage := "⚠️ Please enter 6 digits."

  predicate IsDigit(c: char) { '0' <= c <= '9' }

  /** `/^[0-9]?$/`: the empty string or exactly one ASCII digit. */
  predicate Accepts(value: string)
    ensures Accepts(value) <==> |value| <= 1 && AllDigits(value)
  {
    value == "" || (|value| == 1 && IsDigit(value[0]))
  }

  /** `otp.join("")`. */
  function Join(slots: seq<string>): (code: string)
    ensures code == "" <==> forall i :: 0 <= i < |slots| ==> slots[i] == ""
  {
    if slots == [] then ""
    else
      assert forall i :: 1 <= i < |slots| ==> slots[i] == slots[1..][i - 1];
      slots[0] + Join(slots[1..])
  }

  /** How many slots hold a digit. */
  function Filled(slots: seq<string>): (n: nat)
    ensures n <= |slots|
  {
    if slots == [] then 0 else (if slots[0] != "" then 1 else 0) + Filled(slots[1..])
  }

  predicate AllDigits(s: string) { forall i :: 0 <= i < |s| ==> IsDigit(s[i]) }

  /** Under the slot invariant the joined code has one character per filled slot, all of them digits. */
  lemma {:induction false} JoinLength(slots: seq<string>)
    requires forall i :: 0 <= i < |slots| ==> Accepts(slots[i])
    ensures |Join(slots)| == Filled(slots)
    ensures AllDigits(Join(slots))
  {
    if slots != [] {
      JoinLength(slots[1..]);
      var rest := Join(slots[1..]);
      assert Join(slots) == slots[0] + rest;
      forall i | 0 <= i < |Join(slots)| ensures IsDigit(Join(slots)[i]) {
        if i >= |slots[0]| { assert Join(slots)[i] == rest[i - |slots[0]|]; }
      }
    }
  }

  /** Every slot is filled exactly when the filled count reaches the number of slots. */
  lemma {:induction false} FilledAll(slots: seq<string>)
    ensures Filled(slots) == |slots| <==> forall i :: 0 <= i < |slots| ==> slots[i] != ""
  {
    if slots != [] {
      FilledAll(slots[1..]);
      assert forall i :: 1 <= i < |slots| ==> slots[i] == slots[1..][i - 1];
    }
  }

  /** A six-slot form yields a six-character code exactly when no slot is empty, and that code is six digits. */
  lemma CodeComplete(slots: seq<string>)
    requires |slots| == Slots
    requires forall i :: 0 <= i < |slots| ==> Accepts(slots[i])
    ensures |Join(slots)| == 6 <==> forall i :: 0 <= i < |slots| ==> slots[i] != ""
    ensures AllDigits(Join(slots))
  {
    JoinLength(slots);
    FilledAll(slots);
  }

  class OtpForm {
    var otp: array<string>
    var error: string
    /** Index of the focused input box (the DOM `focus()` target). */
    var focus: int

    ghost predicate Valid()
      reads this, otp
    {
      otp.Length == Slots &&
      (forall i :: 0 <= i < Slots ==> Accepts(otp[i])) &&
      0 <= focus < Slots
    }

    /** `useState(Array(6).fill(""))` and `useState("")`. */
    constructor ()
      ensures Valid() && fresh(otp)
      ensures otp[..] == ["", "", "", "", "", ""]
      ensures error == "" && focus == 0
    {
      var slots := new string[Slots](_ => "");
      assert slots[..] == ["", "", "", "", "", ""];
      otp := slots;
      error := "";
      focus := 0;
    }

    /** `handleChange(value, index)`. */
    method HandleChange(value: string, index: int)
      requires Valid()
      requires 0 <= index < Slots
      modifies otp, this`focus
      ensures Valid()
      ensures !Accepts(value) ==> otp[..] == old(otp[..]) && focus == old(focus)
      ensures Accepts(value) ==> otp[..] == old(otp[..])[index := value]
      ensures focus == if Accepts(value) && value != "" && index < Slots - 1 then index + 1 else old(focus)
      ensures error == old(error)
    {
      if !Accepts(value) {
        return;
      }
      otp[index] := value;
      if value != "" && index < Slots - 1 {
        focus := index + 1;
      }
    }

    /** `handleKeyDown(e, index)`. */
    method HandleKeyDown(key: string, index: int)
      requires Valid()
      requires 0 <= index < Slots
      modifies this`focus
      ensures Valid()
      ensures focus == if key == "Backspace" && otp[index] == "" && index > 0 then index - 1 else old(focus)
      ensures error == old(error)
    {
      if key == "Backspace" && otp[index] == "" && index > 0 {
        focus := index - 1;
      }
    }

    /**
     * `handleSubmit`: returns the code passed to `onVerify`, or None when
     * `onVerify` is not called and the error message is set instead.
     */
    method HandleSubmit() returns (verified: Option<string>)
      requires Valid()
      modifies this`error
      ensures Valid()
      ensures verified.Some? <==> forall i :: 0 <= i < Slots ==> otp[i] != ""
      ensures verified.Some? ==> verified.value == Join(otp[..]) && |verified.value| == 6 && AllDigits(verified.value)
      ensures verified.Some? ==> error == old(error)
      ensures verified.None? ==> error == ErrorMessage
    {
      var code := Join(otp[..]);
      CodeComplete(otp[..]);
      if |code| == 6 {
        verified := Some(code);
      } else {
        verified := None;
        error := ErrorMessage;
      }
    }
  }
}
