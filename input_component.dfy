/**
 * `Auth::InputComponent`: one labelled input of a sign-in or sign-up form.
 * Everything but the field name comes from the `**options` hash, with a few
 * defaults; an error switches the outline to red.
 */
module AuthInput {
  import opened Text
  import opened RubyValues
  import opened Translation

  const InputBase := "block w-full rounded-md bg-white" + " px-3 py-1.5 text-base text-gray-900"
    + " outline-1 -outline-offset-1" + " outline-gray-300 placeholder:text-gray-400"
    + " focus:outline-2 focus:-outline-offset-2" + " focus:outline-emerald-600 sm:text-sm/6"
  const InputDark := "dark:bg-white/5 dark:text-white" + " dark:placeholder:text-gray-500"
    + " dark:outline-white/10" + " dark:focus:outline-emerald-500"
  const ErrorOutlineRest := " dark:outline-red-400/50" + " placeholder:text-red-300"
    + " dark:placeholder:text-red-400" + " focus:outline-red-600" + " dark:focus:outline-red-500"
  /** The red outline classes an error adds. */
  const ErrorOutline := "outline-red-300" + ErrorOutlineRest

  /**
   * The component as constructed: the field name, the remaining keyword
   * arguments keyed by symbol name, and the Ruby `object_id` of the instance.
   * The form builder is only handed to the template and is not kept here.
   */
  datatype InputComponent = InputComponent(field: Value, options: map<string, Value>, objectId: nat)
  {
    /** `options[:label]`: the given value, or nil when the option is absent. */
    function Label(): (r: Value)
      ensures "label" in options ==> r == options["label"]
      ensures "label" !in options ==> r == Nil
    {
      Lookup(options, "label")
    }

    /** `options[:error]`: the given value, or nil when the option is absent. */
    function Error(): (r: Value)
      ensures "error" in options ==> r == options["error"]
      ensures "error" !in options ==> r == Nil
    {
      Lookup(options, "error")
    }

    /** `options[:autocomplete]`: the given value, or nil when the option is absent. */
    function Autocomplete(): (r: Value)
      ensures "autocomplete" in options ==> r == options["autocomplete"]
      ensures "autocomplete" !in options ==> r == Nil
    {
      Lookup(options, "autocomplete")
    }

    /** `options[:placeholder]`: the given value, or nil when the option is absent. */
    function Placeholder(): (r: Value)
      ensures "placeholder" in options ==> r == options["placeholder"]
      ensures "placeholder" !in options ==> r == Nil
    {
      Lookup(options, "placeholder")
    }

    /** `options[:forgot_password_link]`: the given value, or nil when the option is absent. */
    function ForgotPasswordLink(): (r: Value)
      ensures "forgot_password_link" in options ==> r == options["forgot_password_link"]
      ensures "forgot_password_link" !in options ==> r == Nil
    {
      Lookup(options, "forgot_password_link")
    }

    /** `options[:type] || :text`: a given truthy type, otherwise `:text`; never nil or false. */
    function Type(): (r: Value)
      ensures Truthy(r)
      ensures "type" in options && Truthy(options["type"]) ==> r == options["type"]
      ensures !("type" in options && Truthy(options["type"])) ==> r == Sym("text")
    {
      Or(Lookup(options, "type"), Sym("text"))
    }

    /** `options[:required] || false`: a given truthy flag, otherwise `false`; never nil. */
    function Required(): (r: Value)
      ensures !r.Nil?
      ensures "required" in options && Truthy(options["required"]) ==> r == options["required"]
      ensures !("required" in options && Truthy(options["required"])) ==> r == False
    {
      Or(Lookup(options, "required"), False)
    }

    /**
     * `input_classes`: the base and dark classes, followed by the red outline
     * classes when an error is given, so the error-free list is always a prefix.
     */
    function InputClasses(): (r: string)
      ensures InputBase + " " + InputDark <= r
      ensures Truthy(Error()) ==> HasClass(r, "outline-red-300")
      ensures Truthy(Error()) ==> r == InputBase + " " + InputDark + " " + ErrorOutline
      ensures !Truthy(Error()) ==> r == InputBase + " " + InputDark
    {
      var plain := InputBase + " " + InputDark;
      if Truthy(Error()) then
        ClassBetween(plain + " ", "outline-red-300", ErrorOutlineRest);
        AppendAssoc(plain + " ", "outline-red-300", ErrorOutlineRest);
        AppendAssoc(plain, " ", ErrorOutline);
        plain + " " + ErrorOutline
      else plain
    }

    /** `field_id`: the field name, "_", then the decimal object id, which parses back to the id. */
    function FieldId(): (r: string)
      ensures ToS(field) <= r && |r| > |ToS(field)| && r[|ToS(field)|] == '_'
      ensures AllDigits(r[|ToS(field)| + 1..]) && ParseDecimal(r[|ToS(field)| + 1..]) == objectId
    {
      var f, d := ToS(field), NatToDecimal(objectId);
      ParseNatToDecimal(objectId);
      assert (f + "_" + d)[|f| + 1..] == d;
      f + "_" + d
    }

    /** `label_text`: the explicit label, else the translation of the field's label key, else the humanized field name. */
    function LabelText(i18n: Translations, humanize: string -> string): (r: Value)
      ensures Truthy(Label()) ==> r == Label()
      ensures !Truthy(Label()) ==> r == Str(i18n.TOr(LabelKey(ToS(field)), humanize(ToS(field))))
    {
      Or(Label(), Str(i18n.TOr(LabelKey(ToS(field)), humanize(ToS(field)))))
    }
  }

  /** The translation key of a field's label. */
  function LabelKey(field: string): string {
    "auth.sign_in." + field + "_label"
  }

  /** An explicit label wins whatever the translations and the humanizer say. */
  lemma ExplicitLabelWins(c: InputComponent, i1: Translations, h1: string -> string, i2: Translations, h2: string -> string)
    requires Truthy(c.Label())
    ensures c.LabelText(i1, h1) == c.LabelText(i2, h2) == c.Label()
  {
  }

  /** Without a label or a translated label the humanized field name is shown. */
  lemma HumanizedLabelFallback(c: InputComponent, i18n: Translations, humanize: string -> string)
    requires !Truthy(c.Label()) && LabelKey(ToS(c.field)) !in i18n.entries
    ensures c.LabelText(i18n, humanize) == Str(humanize(ToS(c.field)))
  {
  }

  /** The length of the run of digits that ends `s`. */
  function DigitRun(s: string): (n: nat)
    ensures n <= |s|
    decreases |s|
  {
    if s == [] || !IsDigit(s[|s| - 1]) then 0 else DigitRun(s[..|s| - 1]) + 1
  }

  lemma {:induction false} DigitRunAfterSeparator(f: string, d: string, sep: char)
    requires AllDigits(d) && !IsDigit(sep)
    ensures DigitRun(f + [sep] + d) == |d|
    decreases |d|
  {
    var s := f + [sep] + d;
    if d != [] {
      assert s[..|s| - 1] == f + [sep] + d[..|d| - 1];
      DigitRunAfterSeparator(f, d[..|d| - 1], sep);
    }
  }

  /**
   * A name joined to a digit string by a non-digit separator splits back
   * uniquely: the digits after the last separator and the name before it.
   */
  lemma {:induction false} DigitSuffixUnique(f1: string, d1: string, f2: string, d2: string, sep: char)
    requires AllDigits(d1) && AllDigits(d2) && !IsDigit(sep)
    requires f1 + [sep] + d1 == f2 + [sep] + d2
    ensures f1 == f2 && d1 == d2
  {
    var s := f1 + [sep] + d1;
    DigitRunAfterSeparator(f1, d1, sep);
    DigitRunAfterSeparator(f2, d2, sep);
    assert d1 == s[|s| - |d1|..] == d2;
    assert f1 == s[..|f1|] == f2;
  }

  /** Field ids tell instances apart: equal ids mean the same field name and the same object id. */
  lemma FieldIdsDistinct(a: InputComponent, b: InputComponent)
    requires a.FieldId() == b.FieldId()
    ensures a.objectId == b.objectId && ToS(a.field) == ToS(b.field)
  {
    DigitSuffixUnique(ToS(a.field), NatToDecimal(a.objectId), ToS(b.field), NatToDecimal(b.objectId), '_');
    ParseNatToDecimal(a.objectId);
    ParseNatToDecimal(b.objectId);
  }

  /** The object id can be read back from the field id: the digits after the last "_". */
  lemma FieldIdEndsWithObjectId(c: InputComponent)
    ensures var id := c.FieldId(); var d := NatToDecimal(c.objectId);
      |d| < |id| && id[|id| - |d| - 1] == '_' && AllDigits(id[|id| - |d|..]) && ParseDecimal(id[|id| - |d|..]) == c.objectId
  {
    var d := NatToDecimal(c.objectId);
    assert c.FieldId()[|c.FieldId()| - |d|..] == d;
    ParseNatToDecimal(c.objectId);
  }
}
