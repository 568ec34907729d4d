/**
 * `Auth::LinkComponent`: a text link under an authentication form, centred
 * unless asked otherwise.
 */
module AuthLink {
  import opened Wrappers
  import opened Text
  import opened RubyValues

  const LinkStyleRest := " dark:text-emerald-400" + " hover:text-emerald-500" + " dark:hover:text-emerald-300"
  const LinkStyle := "font-semibold" + " " + "text-emerald-600" + LinkStyleRest

  datatype LinkComponent = LinkComponent(text: Value, url: Value, centered: Value)
  {
    /** `wrapper_classes`: "text-sm", plus " text-center" when `centered` is truthy. */
    function WrapperClasses(): (r: string)
      ensures Truthy(centered) ==> r == "text-sm" + " " + "text-center"
      ensures !Truthy(centered) ==> r == "text-sm"
    {
      var base := "text-sm";
      if Truthy(centered) then base + " " + "text-center" else base
    }

    /** `link_classes`: the same class list for every link. */
    function LinkClasses(): (r: string)
      ensures r == LinkStyle
      ensures HasClass(r, "font-semibold") && HasClass(r, "text-emerald-600")
    {
      ClassBetween("font-semibold" + " ", "text-emerald-600", LinkStyleRest);
      ClassBetween([], "font-semibold", " " + "text-emerald-600" + LinkStyleRest);
      AppendAssoc("font-semibold", " ", "text-emerald-600");
      AppendAssoc("font-semibold", " " + "text-emerald-600", LinkStyleRest);
      assert [] + "font-semibold" == "font-semibold";
      LinkStyle
    }
  }

  /** `initialize(text:, url:, centered: true)`. */
  function NewLink(text: Value, url: Value, centered: Option<Value>): (c: LinkComponent)
    ensures c.text == text && c.url == url
    ensures centered.None? ==> c.centered == True
    ensures centered.Some? ==> c.centered == centered.value
  {
    LinkComponent(text, url, Keyword(centered, True))
  }

  /** The link classes depend on none of the link's text, url or centring. */
  lemma LinkClassesConstant(a: LinkComponent, b: LinkComponent)
    ensures a.LinkClasses() == b.LinkClasses()
  {
  }

  /** The wrapper carries the class "text-center" exactly when the link is centred. */
  lemma CenteredIff(c: LinkComponent)
    ensures HasClass(c.WrapperClasses(), "text-center") <==> Truthy(c.centered)
    ensures HasClass(c.WrapperClasses(), "text-sm")
  {
    if Truthy(c.centered) {
      CenteredClasses();
    } else {
      assert ClassAt("text-sm", "text-sm", 0);
      NotCenteredClasses();
    }
  }

  lemma CenteredClasses()
    ensures HasClass("text-sm" + " " + "text-center", "text-center")
    ensures HasClass("text-sm" + " " + "text-center", "text-sm")
  {
    ClassBetween("text-sm" + " ", "text-center", []);
    assert "text-sm" + " " + "text-center" + [] == "text-sm" + " " + "text-center";
    ClassBetween([], "text-sm", " " + "text-center");
    AppendAssoc("text-sm", " ", "text-center");
    assert [] + "text-sm" == "text-sm";
  }

  /** "text-center" is longer than "text-sm", so it cannot be a class of it. */
  lemma NotCenteredClasses()
    ensures !HasClass("text-sm", "text-center")
  {
    assert |"text-sm"| == 7 && |"text-center"| == 11;
  }

  /** A default link is centred. */
  lemma DefaultLinkIsCentred(text: Value, url: Value)
    ensures NewLink(text, url, None).WrapperClasses() == "text-sm" + " " + "text-center"
  {
  }
}
