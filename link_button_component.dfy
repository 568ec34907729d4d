/**
 * `Auth::LinkButtonComponent`: a link styled as a button. Like the form
 * button it deletes `:class` from its options, and it uses the flex class
 * list, which always starts with "inline-flex items-center".
 */
module AuthLinkButton {
  import opened Wrappers
  import opened Text
  import opened RubyValues
  import opened ButtonStyling
  import AuthButton

  class LinkButtonComponent {
    const text: Value
    const url: Value
    const variant: Value
    /** The remaining keyword arguments, keyed by symbol name. */
    var options: map<string, Value>

    /** `initialize(text:, url:, variant: :primary, **options)`. */
    constructor (text: Value, url: Value, variant: Option<Value>, options: map<string, Value>)
      ensures this.text == text && this.url == url
      ensures this.variant == Keyword(variant, Sym("primary"))
      ensures this.options == options
    {
      this.text := text;
      this.url := url;
      this.variant := Keyword(variant, Sym("primary"));
      this.options := options;
    }

    /**
     * `button_classes`: removes `:class` from the options, leaving every other
     * key as it was, and builds the flex class list with the removed value as extras.
     */
    method ButtonClasses() returns (classes: string)
      modifies this
      ensures options == old(options) - {"class"}
      ensures classes == BuildFlexButtonClasses(variant, AuthButton.ExtraClasses(old(options)))
      ensures classes == FlexPrefix + BuildButtonClasses(variant, AuthButton.ExtraClasses(old(options)))
    {
      var extra := AuthButton.ExtraClasses(options);
      options := options - {"class"};
      classes := BuildFlexButtonClasses(variant, extra);
      FlexIsPrefixedPlain(variant, extra);
    }
  }

  /** The flex base begins with the whole classes "inline-flex" and "items-center". */
  lemma FlexBaseLeads()
    ensures ClassAt(FlexPrefix + BaseClasses, "inline-flex", 0)
    ensures ClassAt(FlexPrefix + BaseClasses, "items-center", 12)
  {
    assert (FlexPrefix + BaseClasses)[..11] == FlexPrefix[..11];
    assert (FlexPrefix + BaseClasses)[12..24] == FlexPrefix[12..24];
  }

  /** Every link button carries the classes "inline-flex" and "items-center". */
  lemma FlexClassesLead(variant: Value, extra: Value)
    ensures HasClass(BuildFlexButtonClasses(variant, extra), "inline-flex")
    ensures HasClass(BuildFlexButtonClasses(variant, extra), "items-center")
  {
    var v, e := ToS(VariantClasses(variant)), ToS(extra);
    FlexBaseLeads();
    ClassListKeepsBaseClass(FlexPrefix + BaseClasses, v, e, "inline-flex", 0);
    ClassListKeepsBaseClass(FlexPrefix + BaseClasses, v, e, "items-center", 12);
  }
}
