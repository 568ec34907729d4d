/**
 * `Auth::FormContainerComponent`: the frame of the authentication forms. Its
 * heading and sub-heading are either given outright or looked up by key.
 */
module AuthFormContainer {
  import opened Wrappers
  import opened RubyValues
  import opened Translation

  datatype FormContainerComponent = FormContainerComponent(titleKey: Value, subtitleKey: Value, title: Value, subtitle: Value)
  {
    /**
     * `title_text`: the explicit title, else the translation of `title_key`,
     * else nil; it is nil exactly when neither is given.
     */
    function TitleText(i18n: Translations): (r: Value)
      ensures Truthy(title) ==> r == title
      ensures !Truthy(title) && Truthy(titleKey) ==> r == Str(i18n.T(ToS(titleKey)))
      ensures Truthy(r) <==> Truthy(title) || Truthy(titleKey)
      ensures !Truthy(title) && !Truthy(titleKey) ==> r == Nil
    {
      Or(title, if Truthy(titleKey) then Str(i18n.T(ToS(titleKey))) else Nil)
    }

    /** `subtitle_text`: the same precedence over `subtitle` and `subtitle_key`. */
    function SubtitleText(i18n: Translations): (r: Value)
      ensures Truthy(subtitle) ==> r == subtitle
      ensures !Truthy(subtitle) && Truthy(subtitleKey) ==> r == Str(i18n.T(ToS(subtitleKey)))
      ensures Truthy(r) <==> Truthy(subtitle) || Truthy(subtitleKey)
      ensures !Truthy(subtitle) && !Truthy(subtitleKey) ==> r == Nil
    {
      Or(subtitle, if Truthy(subtitleKey) then Str(i18n.T(ToS(subtitleKey))) else Nil)
    }
  }

  /** `initialize(title_key:, subtitle_key: nil, title: nil, subtitle: nil)`. */
  function NewFormContainer(titleKey: Value, subtitleKey: Option<Value>, title: Option<Value>, subtitle: Option<Value>): (c: FormContainerComponent)
    ensures c.titleKey == titleKey
    ensures subtitleKey.None? ==> c.subtitleKey == Nil
    ensures subtitleKey.Some? ==> c.subtitleKey == subtitleKey.value
    ensures title.None? ==> c.title == Nil
    ensures title.Some? ==> c.title == title.value
    ensures subtitle.None? ==> c.subtitle == Nil
    ensures subtitle.Some? ==> c.subtitle == subtitle.value
  {
    FormContainerComponent(titleKey, Keyword(subtitleKey, Nil), Keyword(title, Nil), Keyword(subtitle, Nil))
  }

  /** With only a title key, the heading is its translation; with no subtitle at all there is none. */
  lemma KeyOnlyHeading(titleKey: Value, i18n: Translations)
    requires Truthy(titleKey)
    ensures NewFormContainer(titleKey, None, None, None).TitleText(i18n) == Str(i18n.T(ToS(titleKey)))
    ensures NewFormContainer(titleKey, None, None, None).SubtitleText(i18n) == Nil
  {
  }

  /** An explicit title wins over any title key, whatever the translations. */
  lemma ExplicitTitleWins(c: FormContainerComponent, i1: Translations, i2: Translations)
    requires Truthy(c.title)
    ensures c.TitleText(i1) == c.TitleText(i2) == c.title
  {
  }
}
