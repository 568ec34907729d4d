/**
 * `AlertComponent`: a flash message box. Its `type` picks one of five colour
 * schemes for the box, the icon, the text and the dismiss button; `:alert` is
 * an alias of `:error` and every other type falls back to gray.
 */
module Alert {
  import opened Wrappers
  import opened Text
  import opened RubyValues

  /** The icon `icon_svg` draws; its path data is not modelled. */
  datatype Shape = CheckCircle | XCircle | ExclamationTriangle | InformationCircle | Circle

  const AlertBase := "rounded-md p-4"
  const DismissBase := "inline-flex rounded-md "
  const DismissFocus := " focus:ring-2 focus:ring-emerald-600" + " focus:ring-offset-2 focus:ring-offset-"
  const DismissOutline := " focus:outline-hidden"

  /** The markup around the icon's class attribute and its path data. */
  const SvgOpen := "<svg class=\""
  const SvgAttributes := "\" viewBox=\"0 0 20 20\"" + " fill=\"currentColor\" aria-hidden=\"true\""
    + " data-slot=\"icon\">\n        " + "<path fill-rule=\"evenodd\" d=\""
  const SvgClose := "\" clip-rule=\"evenodd\" />\n      </svg>"

  /** `success`, `error` (or `alert`), `warning` and `info` have colour schemes of their own. */
  predicate KnownKind(kind: Value) {
    kind == Sym("success") || kind == Sym("error") || kind == Sym("alert")
    || kind == Sym("warning") || kind == Sym("info")
  }

  /** A dismiss-button class list: the shared lead, the background class, then the rest. */
  function DismissClasses(background: string, rest: string): (r: string)
    ensures DismissBase <= r
    ensures background != [] && (rest == [] || rest[0] == ' ') ==> HasClass(r, background)
  {
    if background != [] && (rest == [] || rest[0] == ' ') then
      ClassBetween(DismissBase, background, rest);
      DismissBase + background + rest
    else
      DismissBase + background + rest
  }

  datatype AlertComponent = AlertComponent(message: Value, messages: Option<seq<Value>>, kind: Value, dismissible: Value)
  {
    /** `messages && messages.any?`: some element of a non-nil list is truthy. */
    function HasList(): (r: bool)
      ensures r <==> messages.Some? && exists i :: 0 <= i < |messages.value| && Truthy(messages.value[i])
    {
      messages.Some? && AnyTruthy(messages.value)
    }

    /** `alert_classes`. */
    function AlertClasses(): (r: string)
      ensures AlertBase + " " <= r
    {
      if kind == Sym("success") then AlertBase + " " + "bg-green-50" + " dark:bg-green-900/50"
      else if kind == Sym("error") || kind == Sym("alert") then AlertBase + " " + "bg-red-50" + " dark:bg-red-900/50"
      else if kind == Sym("warning") then AlertBase + " " + "bg-yellow-50" + " dark:bg-yellow-900/50"
      else if kind == Sym("info") then AlertBase + " " + "bg-blue-50" + " dark:bg-blue-900/50"
      else AlertBase + " " + "bg-gray-50" + " dark:bg-gray-900/50"
    }

    /** `icon_classes`. */
    function IconClasses(): (r: string)
      ensures "size-5 " <= r
    {
      if kind == Sym("success") then "size-5 " + "text-green-400" + " dark:text-green-300"
      else if kind == Sym("error") || kind == Sym("alert") then "size-5 " + "text-red-400" + " dark:text-red-300"
      else if kind == Sym("warning") then "size-5 " + "text-yellow-400" + " dark:text-yellow-300"
      else if kind == Sym("info") then "size-5 " + "text-blue-400" + " dark:text-blue-300"
      else "size-5 " + "text-gray-400" + " dark:text-gray-300"
    }

    /** `text_classes`. */
    function TextClasses(): (r: string)
      ensures "text-sm font-medium " <= r
    {
      if kind == Sym("success") then "text-sm font-medium " + "text-green-800" + " dark:text-green-200"
      else if kind == Sym("error") || kind == Sym("alert") then "text-sm font-medium " + "text-red-800" + " dark:text-red-200"
      else if kind == Sym("warning") then "text-sm font-medium " + "text-yellow-800" + " dark:text-yellow-200"
      else if kind == Sym("info") then "text-sm font-medium " + "text-blue-800" + " dark:text-blue-200"
      else "text-sm font-medium " + "text-gray-800" + " dark:text-gray-200"
    }

    /** `dismiss_button_classes`: every type begins with "inline-flex rounded-md ". */
    function DismissButtonClasses(): (r: string)
      ensures DismissBase <= r
    {
      if kind == Sym("success") then
        DismissClasses("bg-green-50", " dark:bg-green-900/50 p-1.5" + " text-green-500 dark:text-green-400"
          + " hover:bg-green-100" + " dark:hover:bg-green-800/50" + DismissFocus + "green-50"
          + " dark:focus:ring-offset-green-900/50" + DismissOutline)
      else if kind == Sym("error") || kind == Sym("alert") then
        DismissClasses("bg-red-50", " dark:bg-red-900/50 p-1.5" + " text-red-500 dark:text-red-400"
          + " hover:bg-red-100" + " dark:hover:bg-red-800/50" + DismissFocus + "red-50"
          + " dark:focus:ring-offset-red-900/50" + DismissOutline)
      else if kind == Sym("warning") then
        DismissClasses("bg-yellow-50", " dark:bg-yellow-900/50 p-1.5" + " text-yellow-500 dark:text-yellow-400"
          + " hover:bg-yellow-100" + " dark:hover:bg-yellow-800/50" + DismissFocus + "yellow-50"
          + " dark:focus:ring-offset-yellow-900/50" + DismissOutline)
      else if kind == Sym("info") then
        DismissClasses("bg-blue-50", " dark:bg-blue-900/50 p-1.5" + " text-blue-500 dark:text-blue-400"
          + " hover:bg-blue-100" + " dark:hover:bg-blue-800/50" + DismissFocus + "blue-50"
          + " dark:focus:ring-offset-blue-900/50" + DismissOutline)
      else
        DismissClasses("bg-gray-50", " dark:bg-gray-900/50 p-1.5" + " text-gray-500 dark:text-gray-400"
          + " hover:bg-gray-100" + " dark:hover:bg-gray-800/50" + DismissFocus + "gray-50"
          + " dark:focus:ring-offset-gray-900/50" + DismissOutline)
    }

    /** The icon `icon_svg` picks for the type. */
    function IconShape(): (r: Shape)
      ensures r == Circle <==> !KnownKind(kind)
      ensures r == XCircle <==> kind == Sym("error") || kind == Sym("alert")
    {
      if kind == Sym("success") then CheckCircle
      else if kind == Sym("error") || kind == Sym("alert") then XCircle
      else if kind == Sym("warning") then ExclamationTriangle
      else if kind == Sym("info") then InformationCircle
      else Circle
    }

    /** `icon_svg`: the icon's markup, with `icon_classes` as its class attribute and `pathData` drawing the shape. */
    function IconSvg(pathData: Shape -> string): (r: string)
      ensures SvgOpen + IconClasses() + SvgAttributes <= r
      ensures SvgOpen + IconClasses() + SvgAttributes + pathData(IconShape()) <= r
    {
      SvgOpen + IconClasses() + SvgAttributes + pathData(IconShape()) + SvgClose
    }
  }

  /** `AlertComponent.new(message: nil, messages: nil, type: :info, dismissible: false)`. */
  function NewAlert(message: Value, messages: Option<seq<Value>>, kind: Option<Value>, dismissible: Option<Value>): (a: AlertComponent)
    ensures a.message == message && a.messages == messages
    ensures kind.None? ==> a.kind == Sym("info")
    ensures kind.Some? ==> a.kind == kind.value
    ensures dismissible.None? ==> a.dismissible == False
    ensures dismissible.Some? ==> a.dismissible == dismissible.value
  {
    AlertComponent(message, messages, Keyword(kind, Sym("info")), Keyword(dismissible, False))
  }

  /** `Array#any?` without a block: some element is truthy. */
  function AnyTruthy(s: seq<Value>): (r: bool)
    ensures r <==> exists i :: 0 <= i < |s| && Truthy(s[i])
    decreases |s|
  {
    if s == [] then false
    else if Truthy(s[0]) then true
    else
      assert forall i :: 1 <= i < |s| ==> s[i] == s[1..][i - 1];
      AnyTruthy(s[1..])
  }

  /** A list of strings is shown as a list exactly when it is non-nil and non-empty. */
  lemma HasListOfStrings(a: AlertComponent)
    requires a.messages.Some? ==> forall i :: 0 <= i < |a.messages.value| ==> a.messages.value[i].Str?
    ensures a.HasList() <==> a.messages.Some? && a.messages.value != []
  {
    if a.messages.Some? && a.messages.value != [] {
      assert Truthy(a.messages.value[0]);
    }
  }

  /** A list holding only nil and false is not shown, even when it is not empty. */
  lemma FalsyListIsNotShown(a: AlertComponent)
    requires a.messages.Some?
    requires forall i :: 0 <= i < |a.messages.value| ==> !Truthy(a.messages.value[i])
    ensures !a.HasList()
  {
  }

  /** `[nil, false]` is a non-empty list that is not shown. */
  lemma NilFalseListIsNotShown(a: AlertComponent)
    requires a.messages == Some([Nil, False])
    ensures !a.HasList()
  {
    FalsyListIsNotShown(a);
  }

  /** `:alert` and `:error` give identical output from every helper. */
  lemma AlertAliasesError(a: AlertComponent, b: AlertComponent, pathData: Shape -> string)
    requires a.kind == Sym("alert") && b.kind == Sym("error")
    ensures a.AlertClasses() == b.AlertClasses() && a.IconClasses() == b.IconClasses()
    ensures a.TextClasses() == b.TextClasses() && a.DismissButtonClasses() == b.DismissButtonClasses()
    ensures a.IconSvg(pathData) == b.IconSvg(pathData)
  {
  }

  /** `:success` draws everything in green with a check mark. */
  lemma SuccessIsGreen(a: AlertComponent)
    requires a.kind == Sym("success")
    ensures HasClass(a.AlertClasses(), "bg-green-50") && HasClass(a.IconClasses(), "text-green-400")
    ensures HasClass(a.TextClasses(), "text-green-800") && HasClass(a.DismissButtonClasses(), "bg-green-50")
    ensures a.IconShape() == CheckCircle
  {
    ClassBetween(AlertBase + " ", "bg-green-50", " dark:bg-green-900/50");
    ClassBetween("size-5 ", "text-green-400", " dark:text-green-300");
    ClassBetween("text-sm font-medium ", "text-green-800", " dark:text-green-200");
  }

  /** `:error` and its alias `:alert` draw everything in red with a crossed circle. */
  lemma ErrorIsRed(a: AlertComponent)
    requires a.kind == Sym("error") || a.kind == Sym("alert")
    ensures HasClass(a.AlertClasses(), "bg-red-50") && HasClass(a.IconClasses(), "text-red-400")
    ensures HasClass(a.TextClasses(), "text-red-800") && HasClass(a.DismissButtonClasses(), "bg-red-50")
    ensures a.IconShape() == XCircle
  {
    ClassBetween(AlertBase + " ", "bg-red-50", " dark:bg-red-900/50");
    ClassBetween("size-5 ", "text-red-400", " dark:text-red-300");
    ClassBetween("text-sm font-medium ", "text-red-800", " dark:text-red-200");
  }

  /** `:warning` draws everything in yellow with a warning triangle. */
  lemma WarningIsYellow(a: AlertComponent)
    requires a.kind == Sym("warning")
    ensures HasClass(a.AlertClasses(), "bg-yellow-50") && HasClass(a.IconClasses(), "text-yellow-400")
    ensures HasClass(a.TextClasses(), "text-yellow-800") && HasClass(a.DismissButtonClasses(), "bg-yellow-50")
    ensures a.IconShape() == ExclamationTriangle
  {
    ClassBetween(AlertBase + " ", "bg-yellow-50", " dark:bg-yellow-900/50");
    ClassBetween("size-5 ", "text-yellow-400", " dark:text-yellow-300");
    ClassBetween("text-sm font-medium ", "text-yellow-800", " dark:text-yellow-200");
  }

  /** `:info` draws everything in blue with an information mark. */
  lemma InfoIsBlue(a: AlertComponent)
    requires a.kind == Sym("info")
    ensures HasClass(a.AlertClasses(), "bg-blue-50") && HasClass(a.IconClasses(), "text-blue-400")
    ensures HasClass(a.TextClasses(), "text-blue-800") && HasClass(a.DismissButtonClasses(), "bg-blue-50")
    ensures a.IconShape() == InformationCircle
  {
    ClassBetween(AlertBase + " ", "bg-blue-50", " dark:bg-blue-900/50");
    ClassBetween("size-5 ", "text-blue-400", " dark:text-blue-300");
    ClassBetween("text-sm font-medium ", "text-blue-800", " dark:text-blue-200");
  }

  /** Every type outside the known five falls back to gray and a plain circle. */
  lemma UnknownKindIsGray(a: AlertComponent)
    requires !KnownKind(a.kind)
    ensures HasClass(a.AlertClasses(), "bg-gray-50") && HasClass(a.IconClasses(), "text-gray-400")
    ensures HasClass(a.TextClasses(), "text-gray-800") && HasClass(a.DismissButtonClasses(), "bg-gray-50")
    ensures a.IconShape() == Circle
  {
    ClassBetween(AlertBase + " ", "bg-gray-50", " dark:bg-gray-900/50");
    ClassBetween("size-5 ", "text-gray-400", " dark:text-gray-300");
    ClassBetween("text-sm font-medium ", "text-gray-800", " dark:text-gray-200");
  }

  /** The text up to the first double quote, as an HTML parser reads an attribute value. */
  function UntilQuote(s: string): (r: string)
    ensures r <= s && '"' !in r
    decreases |s|
  {
    if s == [] || s[0] == '"' then [] else [s[0]] + UntilQuote(s[1..])
  }

  /** The class attribute of an `<svg class="...` element. */
  function SvgClassAttribute(svg: string): Option<string> {
    if SvgOpen <= svg then Some(UntilQuote(svg[|SvgOpen|..])) else None
  }

  lemma {:induction false} UntilQuoteStops(c: string, rest: string)
    requires '"' !in c && rest != [] && rest[0] == '"'
    ensures UntilQuote(c + rest) == c
    decreases |c|
  {
    if c != [] {
      assert (c + rest)[1..] == c[1..] + rest;
      UntilQuoteStops(c[1..], rest);
    }
  }

  /** No class list of the icon holds a double quote. */
  lemma IconClassesUnquoted(a: AlertComponent)
    ensures '"' !in a.IconClasses()
  {
    var k := a.kind;
    if k == Sym("success") {
      assert '"' !in "size-5 " + "text-green-400" + " dark:text-green-300";
    } else if k == Sym("error") || k == Sym("alert") {
      assert '"' !in "size-5 " + "text-red-400" + " dark:text-red-300";
    } else if k == Sym("warning") {
      assert '"' !in "size-5 " + "text-yellow-400" + " dark:text-yellow-300";
    } else if k == Sym("info") {
      assert '"' !in "size-5 " + "text-blue-400" + " dark:text-blue-300";
    } else {
      assert '"' !in "size-5 " + "text-gray-400" + " dark:text-gray-300";
    }
  }

  /** The class attribute read back from `icon_svg` is exactly `icon_classes` of the same type. */
  lemma IconSvgCarriesIconClasses(a: AlertComponent, pathData: Shape -> string)
    ensures SvgClassAttribute(a.IconSvg(pathData)) == Some(a.IconClasses())
  {
    var svg := a.IconSvg(pathData);
    var c, p := a.IconClasses(), pathData(a.IconShape());
    var rest := SvgAttributes + p + SvgClose;
    AppendAssoc(SvgOpen + c, SvgAttributes, p);
    AppendAssoc(SvgOpen + c, SvgAttributes + p, SvgClose);
    AppendAssoc(SvgOpen, c, rest);
    assert svg == SvgOpen + (c + rest);
    assert rest[0] == '"';
    IconClassesUnquoted(a);
    UntilQuoteStops(a.IconClasses(), rest);
  }
}
