/**
 * `Auth::ButtonComponent`: a form button. Its class list is built from the
 * variant and from the `class:` option, which `button_classes` deletes from
 * the stored options hash.
 */
module AuthButton {
  import opened Wrappers
  import opened Text
  import opened RubyValues
  import opened ButtonStyling

  /** `options.delete(:class) || ""`: the value under `:class`, or "" when it is absent, nil or false. */
  function ExtraClasses(options: map<string, Value>): (r: Value)
    ensures "class" in options && Truthy(options["class"]) ==> r == options["class"]
    ensures !("class" in options && Truthy(options["class"])) ==> r == Str("")
  {
    Or(Lookup(options, "class"), Str(""))
  }

  class ButtonComponent {
    const text: Value
    const buttonType: Value
    const variant: Value
    /** The remaining keyword arguments, keyed by symbol name. */
    var options: map<string, Value>

    /** `initialize(text:, type: :submit, variant: :primary, **options)`. */
    constructor (text: Value, buttonType: Option<Value>, variant: Option<Value>, options: map<string, Value>)
      ensures this.text == text
      ensures this.buttonType == Keyword(buttonType, Sym("submit"))
      ensures this.variant == Keyword(variant, Sym("primary"))
      ensures this.options == options
    {
      this.text := text;
      this.buttonType := Keyword(buttonType, Sym("submit"));
      this.variant := Keyword(variant, Sym("primary"));
      this.options := options;
    }

    /**
     * `button_classes`: removes `:class` from the options, leaving every other
     * key as it was, and builds the class list with the removed value as extras.
     */
    method ButtonClasses() returns (classes: string)
      modifies this
      ensures options == old(options) - {"class"}
      ensures classes == BuildButtonClasses(variant, ExtraClasses(old(options)))
      ensures BaseClasses <= classes
    {
      var extra := ExtraClasses(options);
      options := options - {"class"};
      classes := BuildButtonClasses(variant, extra);
    }
  }

  /**
   * Once `:class` is gone a second `button_classes` has no extras: the
   * variant's classes after the base, or the base alone for an unknown variant.
   */
  lemma SecondCallHasNoExtras(variant: Value, options: map<string, Value>)
    ensures ExtraClasses(options - {"class"}) == Str("")
    ensures variant == Sym("primary") || variant == Sym("secondary") ==>
      BuildButtonClasses(variant, ExtraClasses(options - {"class"})) == BaseClasses + " " + VariantClasses(variant).s
    ensures variant != Sym("primary") && variant != Sym("secondary") ==>
      BuildButtonClasses(variant, ExtraClasses(options - {"class"})) == BaseClasses
  {
    if variant == Sym("primary") || variant == Sym("secondary") {
      KnownVariantWithoutExtras(variant);
    } else {
      UnknownVariantGivesBase(variant);
    }
  }

  /** `class: "w-full"` lands in the class list of a default button. */
  lemma CustomClassApplied()
    ensures HasClass(BuildButtonClasses(Sym("primary"), ExtraClasses(map["class" := Str("w-full")])), "w-full")
  {
    ExtrasPresent(Sym("primary"), Str("w-full"));
  }
}
