/**
 * `ButtonStyling`: the class list of a button is the base classes, the
 * variant's classes and the caller's extra classes, joined by single spaces
 * and stripped. The flex flavour puts "inline-flex items-center " in front
 * of the base classes.
 */
module ButtonStyling {
  import opened Text
  import opened RubyValues

  const PrimaryClasses := "bg-emerald-600 dark:bg-emerald-500" + " text-white hover:bg-emerald-500"
    + " dark:hover:bg-emerald-400" + " focus-visible:outline-emerald-600" + " dark:focus-visible:outline-emerald-500"
  const SecondaryClasses := "bg-white dark:bg-white/10" + " text-gray-900 dark:text-white" + " ring-1 ring-gray-300"
    + " dark:ring-white/20 ring-inset" + " hover:bg-gray-50 dark:hover:bg-white/20"
  /** `button_base_classes`. */
  const BaseClasses := "rounded-md px-3 py-1.5" + " text-sm/6 font-semibold" + " shadow-xs focus-visible:outline-2"
    + " focus-visible:outline-offset-2"
  const FlexPrefix := "inline-flex items-center "

  /**
   * `VARIANT_CLASSES[variant]`: only the symbols `:primary` and `:secondary`
   * are keys; anything else (another symbol, the string "primary", nil) is nil.
   */
  function VariantClasses(variant: Value): (r: Value)
    ensures r.Nil? <==> variant != Sym("primary") && variant != Sym("secondary")
    ensures variant == Sym("primary") ==> r == Str(PrimaryClasses)
    ensures variant == Sym("secondary") ==> r == Str(SecondaryClasses)
    ensures r.Nil? || (r.Str? && Solid(r.s))
  {
    if variant == Sym("primary") then Str(PrimaryClasses)
    else if variant == Sym("secondary") then Str(SecondaryClasses)
    else Nil
  }

  /** `[ base, variant_classes, extra_classes ].join(" ").strip` on the rendered strings. */
  function ClassList(base: string, v: string, e: string): (r: string)
    requires Solid(base)
    ensures r == base + StripRight(" " + v + " " + e)
    ensures Trimmed(r)
  {
    JoinThree(base, v, e);
    StripAfter(base, " " + v + " " + e);
    Strip(JoinSpace([base, v, e]))
  }

  lemma JoinThree(a: string, b: string, c: string)
    ensures JoinSpace([a, b, c]) == a + (" " + b + " " + c)
  {
    assert [a, b, c][1..] == [b, c];
    assert [b, c][1..] == [c];
    assert JoinSpace([b, c]) == b + " " + c;
    calc {
      JoinSpace([a, b, c]);
      a + " " + (b + " " + c);
      { AppendAssoc(a, " ", b + " " + c); }
      a + (" " + (b + " " + c));
      { AppendAssoc(" ", b + " ", c); AppendAssoc(" ", b, " "); }
      a + (" " + b + " " + c);
    }
  }

  /** `build_button_classes(variant:, extra_classes:)`: always starts with the base classes. */
  function BuildButtonClasses(variant: Value, extra: Value): (r: string)
    ensures BaseClasses <= r && Trimmed(r)
  {
    ClassList(BaseClasses, ToS(VariantClasses(variant)), ToS(extra))
  }

  /** `build_flex_button_classes(variant:, extra_classes:)`. */
  function BuildFlexButtonClasses(variant: Value, extra: Value): (r: string)
    ensures FlexPrefix + BaseClasses <= r && Trimmed(r)
  {
    ClassList(FlexPrefix + BaseClasses, ToS(VariantClasses(variant)), ToS(extra))
  }

  /** Putting text in front of the base puts it in front of the whole class list. */
  lemma ClassListPrefixed(p: string, base: string, v: string, e: string)
    requires Solid(base) && Solid(p + base)
    ensures ClassList(p + base, v, e) == p + ClassList(base, v, e)
  {
    var t := StripRight(" " + v + " " + e);
    assert (p + base) + t == p + (base + t);
  }

  /** The flex class list is the plain one with "inline-flex items-center " in front. */
  lemma FlexIsPrefixedPlain(variant: Value, extra: Value)
    ensures BuildFlexButtonClasses(variant, extra) == FlexPrefix + BuildButtonClasses(variant, extra)
  {
    ClassListPrefixed(FlexPrefix, BaseClasses, ToS(VariantClasses(variant)), ToS(extra));
  }

  /** With nothing in the variant and extra slots only the base is left. */
  lemma ClassListBaseOnly(base: string)
    requires Solid(base)
    ensures ClassList(base, "", "") == base
  {
    assert " " + "" + " " + "" == "  ";
    assert StripRight("  ") == "" by {
      assert "  "[..1] == " ";
      assert " "[..0] == "";
    }
  }

  /** An unknown variant with no extras leaves exactly the base classes. */
  lemma UnknownVariantGivesBase(variant: Value)
    requires variant != Sym("primary") && variant != Sym("secondary")
    ensures BuildButtonClasses(variant, Str("")) == BaseClasses
  {
    ClassListBaseOnly(BaseClasses);
  }

  /** Trailing whitespace after a solid class list never reaches into it. */
  lemma StripAfterSolid(v: string, e: string)
    requires Solid(v)
    ensures StripRight(" " + v + " " + e) == " " + v + StripRight(" " + e)
  {
    assert " " + v + " " + e == (" " + v) + (" " + e);
    StripRightAfter(" " + v, " " + e);
  }

  /** A solid variant slot with empty extras: base, one space, the variant, nothing after. */
  lemma ClassListNoExtras(base: string, v: string)
    requires Solid(base) && Solid(v)
    ensures ClassList(base, v, "") == base + " " + v
  {
    StripAfterSolid(v, "");
    assert StripRight(" " + "") == "" by { assert (" " + "")[..0] == ""; }
    assert base + (" " + v + "") == base + " " + v;
  }

  /** A known variant with no extras: base, one space, the variant's classes, nothing after. */
  lemma KnownVariantWithoutExtras(variant: Value)
    requires variant == Sym("primary") || variant == Sym("secondary")
    ensures BuildButtonClasses(variant, Str("")) == BaseClasses + " " + VariantClasses(variant).s
  {
    ClassListNoExtras(BaseClasses, VariantClasses(variant).s);
  }

  /** Solid extras come last, after one space: the class list is the plain join. */
  lemma ClassListExtrasLast(base: string, v: string, e: string)
    requires Solid(base) && Solid(e)
    ensures ClassList(base, v, e) == base + " " + v + " " + e
  {
    var s := " " + v + " " + e;
    assert s[|s| - 1] == e[|e| - 1];
    assert base + s == base + " " + v + " " + e;
  }

  /**
   * Non-empty extras without outer whitespace come last, after one space; an
   * unknown variant leaves its empty slot, so two spaces precede them.
   */
  lemma ExtrasComeLast(variant: Value, extra: Value)
    requires Solid(ToS(extra))
    ensures BuildButtonClasses(variant, extra) == BaseClasses + " " + ToS(VariantClasses(variant)) + " " + ToS(extra)
  {
    ClassListExtrasLast(BaseClasses, ToS(VariantClasses(variant)), ToS(extra));
  }

  /** A whole class of a solid variant slot is a whole class of the list, one space after the base. */
  lemma ClassListKeepsVariantClass(base: string, v: string, e: string, c: string, i: nat)
    requires Solid(base) && Solid(v) && ClassAt(v, c, i)
    ensures ClassAt(ClassList(base, v, e), c, |base| + 1 + i)
  {
    StripAfterSolid(v, e);
    var q := StripRight(" " + e);
    StripRightKeepsFirst(" " + e);
    var r := ClassList(base, v, e);
    assert r == base + (" " + v + q);
    ClassAtEmbed(base + " ", v, q, c, i);
    AppendAssoc(base, " ", v);
    AppendAssoc(base, " " + v, q);
    assert base + " " + v + q == r;
  }

  /** A whole class of the base is a whole class of the list at the same place. */
  lemma ClassListKeepsBaseClass(base: string, v: string, e: string, c: string, i: nat)
    requires Solid(base) && ClassAt(base, c, i)
    ensures ClassAt(ClassList(base, v, e), c, i)
  {
    var s := " " + v + " " + e;
    assert s[0] == ' ';
    StripRightKeepsFirst(s);
    ClassAtExtend(base, StripRight(s), c, i);
  }

  /** `:primary` buttons carry the class "bg-emerald-600", whatever the extras. */
  lemma PrimaryHasEmerald(extra: Value)
    ensures HasClass(BuildButtonClasses(Sym("primary"), extra), "bg-emerald-600")
  {
    assert ClassAt(PrimaryClasses, "bg-emerald-600", 0);
    ClassListKeepsVariantClass(BaseClasses, PrimaryClasses, ToS(extra), "bg-emerald-600", 0);
  }

  /** `:secondary` buttons carry the class "bg-white", whatever the extras. */
  lemma SecondaryHasWhite(extra: Value)
    ensures HasClass(BuildButtonClasses(Sym("secondary"), extra), "bg-white")
  {
    assert ClassAt(SecondaryClasses, "bg-white", 0);
    ClassListKeepsVariantClass(BaseClasses, SecondaryClasses, ToS(extra), "bg-white", 0);
  }

  /** Every button, whatever its variant, carries the base class "rounded-md". */
  lemma BaseClassPresent(variant: Value, extra: Value)
    ensures HasClass(BuildButtonClasses(variant, extra), "rounded-md")
  {
    assert ClassAt(BaseClasses, "rounded-md", 0);
    ClassListKeepsBaseClass(BaseClasses, ToS(VariantClasses(variant)), ToS(extra), "rounded-md", 0);
  }

  /** Solid extras are the whole trailing part of the class list. */
  lemma ClassListKeepsExtras(base: string, v: string, e: string)
    requires Solid(base) && Solid(e)
    ensures ClassAt(ClassList(base, v, e), e, |base| + |v| + 2)
  {
    var p := base + " " + v + " ";
    ClassListExtrasLast(base, v, e);
    assert ClassAt(e, e, 0);
    ClassAtEmbed(p, e, [], e, 0);
    assert p + e + [] == ClassList(base, v, e);
  }

  /** Solid extras are a whole trailing part of the class list, so their classes apply. */
  lemma ExtrasPresent(variant: Value, extra: Value)
    requires Solid(ToS(extra))
    ensures HasClass(BuildButtonClasses(variant, extra), ToS(extra))
  {
    ClassListKeepsExtras(BaseClasses, ToS(VariantClasses(variant)), ToS(extra));
  }
}
