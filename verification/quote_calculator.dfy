/** The quote calculator page (src/pages/Calculator.tsx): a form of four text
    fields, the last computed quote, and the three handlers that change them. */
module QuoteCalculator {
  import opened Wrappers
  import opened JsParseInt
  import opened Pricing

  /** The keys of `formData` the page passes to `handleChange`. */
  datatype Field = Name | Age | InsuranceType | Coverage

  /** `formData`: each field holds the raw text of its input. */
  datatype FormData = FormData(name: string, age: string, insuranceType: string, coverage: string)
  {
    function Get(field: Field): string
    {
      match field
      case Name => name
      case Age => age
      case InsuranceType => insuranceType
      case Coverage => coverage
    }

    /** `{ ...prev, [field]: value }` */
    function With(field: Field, value: string): (r: FormData)
      ensures r.Get(field) == value
      ensures forall other :: other != field ==> r.Get(other) == Get(other)
    {
      match field
      case Name => this.(name := value)
      case Age => this.(age := value)
      case InsuranceType => this.(insuranceType := value)
      case Coverage => this.(coverage := value)
    }
  }

  /** The form as the page first shows it and as `resetForm` leaves it. */
  function DefaultForm(): FormData
  {
    FormData("", "", "", "100000")
  }

  /** What `quote` holds after a calculation: the annual premium in cents, or
      NaN when the coverage text does not parse. The source stores this
      number formatted as a euro amount; the formatting is not modelled. */
  datatype Premium = Cents(cents: int) | NotANumber

  /** The one way a calculation is refused. */
  datatype ValidationError = MissingFields

  /** `calculateQuote` as a function of the form: refused when a field is the
      empty string, otherwise the pricing rule applied to the parsed fields. */
  function Calculate(form: FormData): (r: Result<Premium, ValidationError>)
    ensures r.Failure? <==> exists field :: form.Get(field) == ""
  {
    EmptyFieldCases(form);
    if form.name == "" || form.age == "" || form.insuranceType == "" || form.coverage == "" then
      Failure(MissingFields)
    else
      match ParseInt(form.coverage)
      case None => Success(NotANumber)
      case Some(coverage) => Success(Cents(AnnualPremiumCents(ParseInt(form.age), form.insuranceType, coverage)))
  }

  /** Some field is empty exactly when one of the four named ones is. */
  lemma EmptyFieldCases(form: FormData)
    ensures (exists field :: form.Get(field) == "") <==>
      form.name == "" || form.age == "" || form.insuranceType == "" || form.coverage == ""
  {
    if form.name == "" || form.age == "" || form.insuranceType == "" || form.coverage == "" {
      var field :=
        if form.name == "" then Name
        else if form.age == "" then Age
        else if form.insuranceType == "" then InsuranceType
        else Coverage;
      assert form.Get(field) == "";
    }
  }

  /** A complete form whose age and coverage are integers written in decimal
      is priced from those integers. */
  lemma CalculateDecimalForm(name: string, age: int, insuranceType: string, coverage: int)
    requires name != "" && insuranceType != ""
    ensures Calculate(FormData(name, DecimalString(age), insuranceType, DecimalString(coverage)))
         == Success(Cents(AnnualPremiumCents(Some(age), insuranceType, coverage)))
  {
    ParseIntDecimalString(age);
    ParseIntDecimalString(coverage);
    assert |NatDigits(if age < 0 then -age else age)| >= 1;
    assert |NatDigits(if coverage < 0 then -coverage else coverage)| >= 1;
  }

  /** An age text that parses to NaN prices as any age from 25 to 60. */
  lemma UnparsedAgePricesAsMidAge(form: FormData, age: int)
    requires form.name != "" && form.age != "" && form.insuranceType != ""
    requires ParseInt(form.age) == None
    requires 25 <= age <= 60
    ensures Calculate(form) == Calculate(form.With(Age, DecimalString(age)))
  {
    var aged := form.With(Age, DecimalString(age));
    assert aged.age != "" by {
      assert |NatDigits(age)| >= 1;
    }
    ParseIntDecimalString(age);
    match ParseInt(form.coverage)
    case None =>
    case Some(coverage) =>
      UnparsedAgeHasNoFactor(form.insuranceType, coverage, age);
  }

  /** A complete form whose coverage text does not parse yields a NaN quote,
      which the page still stores. */
  lemma UnparsedCoverage(form: FormData)
    requires form.name != "" && form.age != "" && form.insuranceType != "" && form.coverage != ""
    requires ParseInt(form.coverage) == None
    ensures Calculate(form) == Success(NotANumber)
  {
  }

  /** A complete form whose age and coverage parse is priced from the
      parsed integers. */
  lemma PricedForm(form: FormData, age: int, coverage: int)
    requires form.name != "" && form.age != "" && form.insuranceType != "" && form.coverage != ""
    requires ParseInt(form.age) == Some(age) && ParseInt(form.coverage) == Some(coverage)
    ensures Calculate(form) == Success(Cents(AnnualPremiumCents(Some(age), form.insuranceType, coverage)))
  {
  }

  /** The three worked quotes, entered as form text under any customer name. */
  lemma WorkedForms(name: string)
    requires name != ""
    ensures Calculate(FormData(name, "30", "auto", "100000")) == Success(Cents(130000))
    ensures Calculate(FormData(name, "20", "salud", "50000")) == Success(Cents(112500))
    ensures Calculate(FormData(name, "65", "hogar", "200000")) == Success(Cents(324000))
  {
    WorkedQuotes();
    WorkedAuto(name);
    WorkedHealth(name);
    WorkedHome(name);
  }

  lemma WorkedAuto(name: string)
    requires name != ""
    ensures Calculate(FormData(name, "30", "auto", "100000"))
         == Success(Cents(AnnualPremiumCents(Some(30), "auto", 100000)))
  {
    assert NatDigits(30) == "30";
    ParseIntOfText("30", 30);
    Digits100000();
    ParseIntOfText("100000", 100000);
    PricedForm(FormData(name, "30", "auto", "100000"), 30, 100000);
  }

  lemma WorkedHealth(name: string)
    requires name != ""
    ensures Calculate(FormData(name, "20", "salud", "50000"))
         == Success(Cents(AnnualPremiumCents(Some(20), "salud", 50000)))
  {
    assert NatDigits(20) == "20";
    ParseIntOfText("20", 20);
    Digits50000();
    ParseIntOfText("50000", 50000);
    PricedForm(FormData(name, "20", "salud", "50000"), 20, 50000);
  }

  lemma WorkedHome(name: string)
    requires name != ""
    ensures Calculate(FormData(name, "65", "hogar", "200000"))
         == Success(Cents(AnnualPremiumCents(Some(65), "hogar", 200000)))
  {
    assert NatDigits(65) == "65";
    ParseIntOfText("65", 65);
    Digits200000();
    ParseIntOfText("200000", 200000);
    PricedForm(FormData(name, "65", "hogar", "200000"), 65, 200000);
  }

  lemma ParseIntOfText(text: string, n: nat)
    requires text == NatDigits(n)
    ensures ParseInt(text) == Some(n)
  {
    ParseIntDecimalString(n);
  }

  lemma Digits100000()
    ensures NatDigits(100000) == "100000"
  {
  }

  lemma Digits50000()
    ensures NatDigits(50000) == "50000"
  {
  }

  lemma Digits200000()
    ensures NatDigits(200000) == "200000"
  {
  }

  /** The calculator page's state: the form and the last quote (`null` is
      `None`). */
  class Calculator {
    var formData: FormData
    var quote: Option<Premium>

    constructor()
      ensures formData == DefaultForm() && quote == None
    {
      formData := DefaultForm();
      quote := None;
    }

    /** `handleChange(field, value)`: that field takes the value, nothing
        else changes. */
    method HandleChange(field: Field, value: string)
      modifies this
      ensures formData == old(formData).With(field, value)
      ensures quote == old(quote)
    {
      formData := formData.With(field, value);
    }

    /** `calculateQuote()`. The result stands for the notification shown:
        the error message on `Failure`, the success message on `Success`. */
    method CalculateQuote() returns (result: Result<Premium, ValidationError>)
      modifies this
      ensures result == Calculate(old(formData))
      ensures formData == old(formData)
      ensures quote == if result.Success? then Some(result.value) else old(quote)
    {
      if formData.name == "" || formData.age == "" || formData.insuranceType == "" || formData.coverage == "" {
        result := Failure(MissingFields);
        return;
      }
      var age := ParseInt(formData.age);
      var coverage := ParseInt(formData.coverage);
      match coverage {
        case None =>
          // NaN * 0.01 is NaN, and so is every product after it
          result := Success(NotANumber);
        case Some(c) =>
          var cents := QuotePremium(age, formData.insuranceType, c);
          result := Success(Cents(cents));
      }
      quote := Some(result.value);
    }

    /** `resetForm()`: back to the defaults, quote cleared. The new state does
        not depend on the old one, so a second reset changes nothing. */
    method ResetForm()
      modifies this
      ensures formData == DefaultForm() && quote == None
    {
      formData := DefaultForm();
      quote := None;
    }
  }
}
