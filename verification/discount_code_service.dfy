/** The discount-code lookup
    (src/ShoppingBasket.Application/Services/DiscountCodeService.cs). */
module DiscountCodeService {
  import opened Wrappers
  import opened Errors
  import opened Text
  import opened ValueObjects

  /** The hard-coded table. The C# dictionary compares keys with
      `OrdinalIgnoreCase`; its keys are already upper case, so a code matches
      a key exactly when the code's upper-case form is that key. */
  const ValidCodes: map<string, real> := map["SUMMER20" := 20.0, "WELCOME10" := 10.0]

  lemma SummerIsNotBlank()
    ensures !IsBlank("SUMMER20") && !IsBlank("WELCOME10")
  {
    assert !IsWhiteSpace("SUMMER20"[0]);
    assert !IsWhiteSpace("WELCOME10"[0]);
  }

  /** `Validate`: an unknown code fails with `InvalidDiscountCode`; a known
      one yields its percentage together with the code exactly as the caller
      spelled it. The DiscountCode constructor's own checks never fire. */
  function Validate(code: string): (r: Result<DiscountCode, Error>)
    ensures r.Ok? <==> ToUpper(code) in ValidCodes
    ensures r.Ok? ==> r.value.code == code && r.value.percentage == ValidCodes[ToUpper(code)]
    ensures r.Err? ==> r.error == InvalidDiscountCode(code)
  {
    var key := ToUpper(code);
    if key !in ValidCodes then Err(InvalidDiscountCode(code))
    else
      BlankIgnoresCase(code);
      SummerIsNotBlank();
      NewDiscountCode(code, ValidCodes[key])
  }

  /** The table holds canonical (upper-case) keys and percentages in [0, 100]. */
  lemma TableIsWellFormed()
    ensures forall k | k in ValidCodes :: ToUpper(k) == k && 0.0 <= ValidCodes[k] <= 100.0
  {
    assert ValidCodes.Keys == {"SUMMER20", "WELCOME10"};
    forall k | k in ValidCodes
      ensures ToUpper(k) == k && 0.0 <= ValidCodes[k] <= 100.0
    {
      if k == "SUMMER20" {
        ToUpperFixesUpper("SUMMER20");
      } else {
        assert k == "WELCOME10";
        ToUpperFixesUpper("WELCOME10");
      }
    }
  }

  /** The lookup is the dictionary's: a code is accepted exactly when it
      equals some key ignoring case. */
  lemma ValidateMatchesIgnoringCase(code: string)
    ensures Validate(code).Ok? <==> exists k | k in ValidCodes :: EqualsIgnoreCase(k, code)
  {
    TableIsWellFormed();
    if Validate(code).Ok? {
      assert EqualsIgnoreCase(ToUpper(code), code) by { ToUpperIdempotent(code); }
    }
  }

  /** Letter case never changes the outcome or the percentage. */
  lemma ValidateIgnoresCase(code: string)
    ensures Validate(ToUpper(code)).Ok? == Validate(code).Ok?
    ensures Validate(code).Ok? ==> Validate(ToUpper(code)).value.percentage == Validate(code).value.percentage
  {
    ToUpperIdempotent(code);
  }

  /** Both table entries, spelled as stored. */
  lemma ValidateTableExamples()
    ensures Validate("SUMMER20") == Ok(DiscountCode("SUMMER20", 20.0))
    ensures Validate("WELCOME10") == Ok(DiscountCode("WELCOME10", 10.0))
  {
    TableIsWellFormed();
  }

  /** A lower-case spelling finds the entry and is returned as given. */
  lemma ValidateLowerCaseExample()
    ensures Validate("summer20") == Ok(DiscountCode("summer20", 20.0))
  {
    var s := "summer20";
    assert forall i | 0 <= i < |s| :: ToUpper(s)[i] == "SUMMER20"[i];
    assert ToUpper(s) == "SUMMER20";
  }

  /** An unknown code is refused with its own spelling in the error. */
  lemma ValidateUnknownExample()
    ensures Validate("INVALID") == Err(InvalidDiscountCode("INVALID"))
  {
    ToUpperFixesUpper("INVALID");
  }
}
