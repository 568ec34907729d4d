/**
 * `AvatarComponent`: a round avatar of a user. Its class lists depend only
 * on the `size` and `text_size` arguments, never on the user.
 */
module Avatar {
  import opened Wrappers
  import opened Text
  import opened RubyValues

  datatype AvatarComponent<U> = AvatarComponent(user: U, size: Value, textSize: Value)
  {
    /** `size_classes`: "size-" and the rendered size, then "rounded-full". */
    function SizeClasses(): (r: string)
      ensures r == "size-" + ToS(size) + " rounded-full"
      ensures HasClass(r, "size-" + ToS(size)) && HasClass(r, "rounded-full")
    {
      SizeTail();
      var lead := "size-" + ToS(size);
      ClassBetween(lead + " ", "rounded-full", []);
      ClassBetween([], lead, " " + "rounded-full");
      AppendAssoc(lead, " ", "rounded-full");
      assert [] + lead == lead;
      assert lead + " " + "rounded-full" + [] == lead + " " + "rounded-full";
      lead + " " + "rounded-full"
    }

    /** `text_classes`: "text-" and the rendered text size, then "font-medium text-white hidden". */
    function TextClasses(): (r: string)
      ensures HasClass(r, "text-" + ToS(textSize)) && HasClass(r, "font-medium")
      ensures HasClass(r, "text-white") && HasClass(r, "hidden")
      ensures r == "text-" + ToS(textSize) + " font-medium text-white hidden"
    {
      var lead := "text-" + ToS(textSize);
      TextClassesShape(lead);
      TextTail(lead);
      lead + " " + "font-medium" + " " + "text-white" + " " + "hidden"
    }
  }

  /** The tail of `size_classes`, one piece per class. */
  lemma SizeTail()
    ensures " " + "rounded-full" == " rounded-full"
  {
  }

  /** The tail of `text_classes`, one piece per class. */
  lemma TextTail(lead: string)
    ensures lead + " " + "font-medium" + " " + "text-white" + " " + "hidden" == lead + " font-medium text-white hidden"
  {
    var t := " " + "font-medium" + " " + "text-white" + " " + "hidden";
    assert t == " font-medium text-white hidden";
    AppendAssoc(lead, " ", "font-medium");
    AppendAssoc(lead, " " + "font-medium", " ");
    AppendAssoc(lead, " " + "font-medium" + " ", "text-white");
    AppendAssoc(lead, " " + "font-medium" + " " + "text-white", " ");
    AppendAssoc(lead, " " + "font-medium" + " " + "text-white" + " ", "hidden");
  }

  /** Each class of `text_classes` sits between spaces. */
  lemma TextClassesShape(lead: string)
    requires lead != []
    ensures var r := lead + " " + "font-medium" + " " + "text-white" + " " + "hidden";
      HasClass(r, lead) && HasClass(r, "font-medium") && HasClass(r, "text-white") && HasClass(r, "hidden")
  {
    var r := lead + " " + "font-medium" + " " + "text-white" + " " + "hidden";
    ClassBetween(lead + " " + "font-medium" + " " + "text-white" + " ", "hidden", []);
    assert r + [] == r;
    ClassBetween(lead + " " + "font-medium" + " ", "text-white", " " + "hidden");
    AppendAssoc(lead + " " + "font-medium" + " " + "text-white", " ", "hidden");
    ClassBetween(lead + " ", "font-medium", " " + "text-white" + " " + "hidden");
    AppendAssoc(lead + " " + "font-medium", " ", "text-white");
    AppendAssoc(lead + " " + "font-medium", " " + "text-white", " ");
    AppendAssoc(lead + " " + "font-medium", " " + "text-white" + " ", "hidden");
    ClassBetween([], lead, " " + "font-medium" + " " + "text-white" + " " + "hidden");
    assert [] + lead == lead;
    AppendAssoc(lead, " ", "font-medium");
    AppendAssoc(lead, " " + "font-medium", " ");
    AppendAssoc(lead, " " + "font-medium" + " ", "text-white");
    AppendAssoc(lead, " " + "font-medium" + " " + "text-white", " ");
    AppendAssoc(lead, " " + "font-medium" + " " + "text-white" + " ", "hidden");
  }

  /** `initialize(user:, size: 8, text_size: "sm")`. */
  function NewAvatar<U>(user: U, size: Option<Value>, textSize: Option<Value>): (a: AvatarComponent<U>)
    ensures a.user == user
    ensures size.None? ==> a.size == Int(8)
    ensures size.Some? ==> a.size == size.value
    ensures textSize.None? ==> a.textSize == Str("sm")
    ensures textSize.Some? ==> a.textSize == textSize.value
  {
    AvatarComponent(user, Keyword(size, Int(8)), Keyword(textSize, Str("sm")))
  }

  /** The default avatar is `size-8` with `text-sm` initials. */
  lemma DefaultAvatarClasses<U>(user: U)
    ensures HasClass(NewAvatar(user, None, None).SizeClasses(), "size-8")
    ensures HasClass(NewAvatar(user, None, None).TextClasses(), "text-sm")
  {
    assert IntToDecimal(8) == "8";
    assert "size-" + "8" == "size-8";
    assert "text-" + "sm" == "text-sm";
  }

  /** `size: 20, text_size: "2xl"` gives `size-20` and `text-2xl`. */
  lemma CustomAvatarClasses<U>(user: U)
    ensures HasClass(NewAvatar(user, Some(Int(20)), Some(Str("2xl"))).SizeClasses(), "size-20")
    ensures HasClass(NewAvatar(user, Some(Int(20)), Some(Str("2xl"))).TextClasses(), "text-2xl")
  {
    assert NatToDecimal(20) == NatToDecimal(2) + [DigitChar(0)];
    assert IntToDecimal(20) == "20";
    assert "size-" + "20" == "size-20";
    assert "text-" + "2xl" == "text-2xl";
  }

  /** Swapping the user never changes either class list. */
  lemma UserIrrelevant<U>(a: AvatarComponent<U>, other: U)
    ensures a.(user := other).SizeClasses() == a.SizeClasses()
    ensures a.(user := other).TextClasses() == a.TextClasses()
  {
  }

  /** Different integer sizes give different size classes. */
  lemma SizeClassesInjective<U>(a: AvatarComponent<U>, b: AvatarComponent<U>)
    requires a.size.Int? && b.size.Int? && a.SizeClasses() == b.SizeClasses()
    ensures a.size == b.size
  {
    var x, y := ToS(a.size), ToS(b.size);
    assert a.SizeClasses() == "size-" + x + " " + "rounded-full";
    assert b.SizeClasses() == "size-" + y + " " + "rounded-full";
    AppendAssoc("size-" + x, " ", "rounded-full");
    AppendAssoc("size-" + y, " ", "rounded-full");
    CancelRight("size-" + x, "size-" + y, " " + "rounded-full");
    CancelLeft("size-", x, y);
    IntToDecimalInjective(a.size.i, b.size.i);
  }
}
