/** The inline Pakistani phone-number formatting the booking handler applies to the
    customer's phone before handing it to the SMS provider (backend/index1.js). */
module Phone {
  import opened Text

  /** Country calling code of Pakistan, the default region. */
  const CountryCode := "92"

  /** International form of a customer phone number. A number that already starts
      with `+` is used as it is; otherwise white space and dashes are removed and a
      leading trunk `0` is replaced by `+92`, a number without the country code gets
      `+92` in front, and a number that starts with `92` gets just `+`. */
  function NormalizePhone(phone: string): (r: string)
    ensures |r| > 0 && r[0] == '+'
    ensures StartsWith(phone, "+") ==> r == phone
    ensures !StartsWith(phone, "+") ==> StartsWith(r, "+" + CountryCode)
  {
    if StartsWith(phone, "+") then phone
    else
      var f := StripSpacesAndDashes(phone);
      if StartsWith(f, "0") then "+" + CountryCode + f[1..]
      else if !StartsWith(f, CountryCode) then "+" + CountryCode + f
      else "+" + f
  }

  /** Apart from its leading `+`, a number normalised from local form holds no
      white space or dashes. */
  lemma NormalizeHasNoSeparators(phone: string)
    requires !StartsWith(phone, "+")
    ensures forall k :: 1 <= k < |NormalizePhone(phone)| ==> !IsPhoneSeparator(NormalizePhone(phone)[k])
  {
    StripRemovesSeparators(phone);
  }

  /** Normalisation is idempotent: its result always starts with `+`, and such a
      number is left alone. */
  lemma NormalizeIdempotent(phone: string)
    ensures NormalizePhone(NormalizePhone(phone)) == NormalizePhone(phone)
  {
  }

  /** The three local spellings of one subscriber number (trunk `0`, bare national
      number, country code without `+`) all normalise to the same `+92` number. */
  lemma LocalFormsAgree(national: string)
    requires forall k :: 0 <= k < |national| ==> !IsPhoneSeparator(national[k])
    requires !StartsWith(national, "+") && !StartsWith(national, "0") && !StartsWith(national, CountryCode)
    ensures NormalizePhone("0" + national) == "+92" + national
    ensures NormalizePhone(national) == "+92" + national
    ensures NormalizePhone(CountryCode + national) == "+92" + national
  {
    StripKeepsPlain(national);
    var a := "0" + national;
    assert !StartsWith(a, "+") by { assert a[0] == '0'; }
    assert a[1..] == national;
    StripKeepsPlain(a);
    assert StartsWith(a, "0");
    var b := CountryCode + national;
    assert !StartsWith(b, "+") by { assert b[0] == '9'; }
    assert b[2..] == national;
    StripKeepsPlain(b);
    assert StartsWith(b, CountryCode) && !StartsWith(b, "0") by { assert b[..2] == CountryCode; }
  }

  /** White space and dashes never matter unless stripping them uncovers a `+`:
      a number normalises like its stripped form. */
  lemma NormalizeIgnoresFormatting(phone: string)
    requires !StartsWith(phone, "+")
    requires !StartsWith(StripSpacesAndDashes(phone), "+")
    ensures NormalizePhone(phone) == NormalizePhone(StripSpacesAndDashes(phone))
  {
    var f := StripSpacesAndDashes(phone);
    StripRemovesSeparators(phone);
    StripKeepsPlain(f);
  }

  /** How a number typed as digits only is normalised, case by case. */
  lemma NormalizeDigits(phone: string)
    requires AllDigits(phone)
    ensures StartsWith(phone, "0") ==> NormalizePhone(phone) == "+92" + phone[1..]
    ensures StartsWith(phone, CountryCode) ==> NormalizePhone(phone) == "+" + phone
    ensures !StartsWith(phone, "0") && !StartsWith(phone, CountryCode) ==> NormalizePhone(phone) == "+92" + phone
  {
    StripKeepsPlain(phone);
    assert !StartsWith(phone, "+") by {
      if |phone| > 0 { assert IsDigit(phone[0]); }
    }
  }

  // One worked example each; the input is a parameter so that the solver does not
  // unfold the normalisation of a literal string character by character.

  lemma TrunkExample(phone: string)
    requires phone == "03001234567"
    ensures NormalizePhone(phone) == "+923001234567"
  {
    NormalizeDigits(phone);
    assert StartsWith(phone, "0") by { assert phone[..1] == "0"; }
  }

  lemma BareExample(phone: string)
    requires phone == "3001234567"
    ensures NormalizePhone(phone) == "+923001234567"
  {
    NormalizeDigits(phone);
    assert !StartsWith(phone, "0") && !StartsWith(phone, CountryCode) by { assert phone[0] == '3'; }
  }

  lemma CodedExample(phone: string)
    requires phone == "923001234567"
    ensures NormalizePhone(phone) == "+923001234567"
  {
    NormalizeDigits(phone);
    assert StartsWith(phone, CountryCode) by { assert phone[..2] == CountryCode; }
  }

  /** A local number typed in groups separated by a dash or a space normalises like
      the same digits typed without separators. */
  lemma {:induction false} GroupedDigits(groups: seq<string>, seps: seq<char>)
    requires |seps| + 1 == |groups|
    requires forall g :: 0 <= g < |groups| ==> AllDigits(groups[g])
    requires forall g :: 0 <= g < |seps| ==> IsPhoneSeparator(seps[g])
    ensures StripSpacesAndDashes(Interleave(groups, seps)) == Concat(groups)
  {
    DigitsArePlain(groups[0]);
    if |seps| == 0 {
      StripKeepsPlain(groups[0]);
    } else {
      GroupedDigits(groups[1..], seps[1..]);
      StripAppend(groups[0] + [seps[0]], Interleave(groups[1..], seps[1..]));
      StripAppend(groups[0], [seps[0]]);
      StripKeepsPlain(groups[0]);
    }
  }

  /** `groups[0] + seps[0] + groups[1] + ... + groups[n]`. */
  function Interleave(groups: seq<string>, seps: seq<char>): string
    requires |seps| + 1 == |groups|
  {
    if |seps| == 0 then groups[0] else groups[0] + [seps[0]] + Interleave(groups[1..], seps[1..])
  }

  function Concat(groups: seq<string>): string {
    if groups == [] then [] else groups[0] + Concat(groups[1..])
  }

  lemma SeparatedExample(phone: string)
    requires phone == "0300-123 4567"
    ensures NormalizePhone(phone) == "+923001234567"
  {
    var groups, seps := ["0300", "123", "4567"], ['-', ' '];
    assert phone == Interleave(groups, seps);
    GroupedDigits(groups, seps);
    var f := StripSpacesAndDashes(phone);
    assert f == "03001234567";
    assert !StartsWith(phone, "+") by { assert phone[0] == '0'; }
    assert StartsWith(f, "0") by { assert f[..1] == "0"; }
  }

  /** The `+` test runs before stripping, so a number pasted with a leading space
      keeps its own `+` and gets a second country code in front of it. */
  lemma LeadingSpaceBeforePlus(digits: string)
    requires AllDigits(digits)
    ensures NormalizePhone(" +" + digits) == "+92+" + digits
  {
    var phone := " +" + digits;
    assert !StartsWith(phone, "+") by { assert phone[0] == ' '; }
    var f := phone[1..];
    assert f == "+" + digits;
    StripKeepsPlain(f);
    assert StripSpacesAndDashes(phone) == f;
    assert !StartsWith(f, "0") && !StartsWith(f, CountryCode) by { assert f[0] == '+'; }
  }

  lemma LeadingSpaceExample(phone: string)
    requires phone == " +923001234567"
    ensures NormalizePhone(phone) == "+92+923001234567"
  {
    var digits := phone[2..];
    assert AllDigits(digits);
    assert phone == " +" + digits;
    LeadingSpaceBeforePlus(digits);
  }

  /** The worked examples: three local spellings, one already international, one
      with separators, and one with a space before its `+`. */
  lemma NormalizeExamples()
    ensures NormalizePhone("03001234567") == "+923001234567"
    ensures NormalizePhone("3001234567") == "+923001234567"
    ensures NormalizePhone("923001234567") == "+923001234567"
    ensures NormalizePhone("+923001234567") == "+923001234567"
    ensures NormalizePhone("0300-123 4567") == "+923001234567"
    ensures NormalizePhone(" +923001234567") == "+92+923001234567"
  {
    TrunkExample("03001234567");
    BareExample("3001234567");
    CodedExample("923001234567");
    assert StartsWith("+923001234567", "+") by { assert "+923001234567"[..1] == "+"; }
    SeparatedExample("0300-123 4567");
    LeadingSpaceExample(" +923001234567");
  }
}
