/** The FastAPI service's language table and its fallback lookup. */
module Config {

  /** One row of `LANGUAGE_CONFIG`; the record type gives every row all four fields. */
  datatype LanguageEntry =
    LanguageEntry(code: string, speechLocale: string, displayLabel: string, flag: string)

  /** The table as `config.py` stores it. Its non-ASCII labels and flags are held in the file
      double-encoded (UTF-8 bytes read back as Latin-1 or Windows-1254), so, for example, the
      Portuguese label is "PortuguÃªs" rather than "Português"; they are kept here as stored. */
  const LanguageConfig: map<string, LanguageEntry> := map[
    "italian" := LanguageEntry("it", "it-IT", "Italiano", "\U{11F}\U{178}\U{2021}\U{AE}\U{11F}\U{178}\U{2021}\U{B9}"),
    "german" := LanguageEntry("de", "de-DE", "Deutsch", "\U{11F}\U{178}\U{2021}\U{A9}\U{11F}\U{178}\U{2021}\U{AA}"),
    "portuguese" := LanguageEntry("pt", "pt-PT", "Portugu\U{C3}\U{AA}s", "\U{11F}\U{178}\U{2021}\U{B5}\U{11F}\U{178}\U{2021}\U{B9}"),
    "french" := LanguageEntry("fr", "fr-FR", "Fran\U{C3}\U{A7}ais", "\U{11F}\U{178}\U{2021}\U{AB}\U{11F}\U{178}\U{2021}\U{B7}"),
    "albanian" := LanguageEntry("sq", "sq-AL", "Shqip", "\U{11F}\U{178}\U{2021}\U{BD}\U{11F}\U{178}\U{2021}\U{B0}"),
    "spanish" := LanguageEntry("es", "es-ES", "Espa\U{C3}\U{B1}ol", "\U{11F}\U{178}\U{2021}\U{AA}\U{11F}\U{178}\U{2021}\U{B8}"),
    "turkish" := LanguageEntry("tr", "tr-TR", "T\U{C3}\U{BC}rk\U{C3}\U{A7}e", "\U{11F}\U{178}\U{2021}\U{B9}\U{11F}\U{178}\U{2021}\U{B7}"),
    "macedonian" := LanguageEntry("mk", "mk-MK", "\U{11E}\U{153}\U{11E}\U{B0}\U{11E}\U{BA}\U{11E}\U{B5}\U{11E}\U{B4}\U{11E}\U{BE}\U{11E}\U{BD}\U{D1}\U{11E}\U{BA}\U{11E}\U{B8}", "\U{11F}\U{178}\U{2021}\U{B2}\U{11F}\U{178}\U{2021}\U{B0}"),
    "ukrainian" := LanguageEntry("uk", "uk-UA", "\U{11E}\U{A3}\U{11E}\U{BA}\U{D1}\U{20AC}\U{11E}\U{B0}\U{D1}\U{2014}\U{11E}\U{BD}\U{D1}\U{D1}\U{152}\U{11E}\U{BA}\U{11E}\U{B0}", "\U{11F}\U{178}\U{2021}\U{BA}\U{11F}\U{178}\U{2021}\U{A6}"),
    "english" := LanguageEntry("en", "en-US", "English", "\U{11F}\U{178}\U{2021}\U{BA}\U{11F}\U{178}\U{2021}\U{B8}")
  ]

  const DefaultLanguage: string := "german"

  const ScenarioName: string := "Social hilfe check"

  /** The default key is configured, as German with locale de-DE. */
  lemma DefaultIsConfigured()
    ensures DefaultLanguage in LanguageConfig
    ensures LanguageConfig[DefaultLanguage].code == "de"
    ensures LanguageConfig[DefaultLanguage].speechLocale == "de-DE"
  {
  }

  /** A speech locale is the language code, a dash, and a two-letter region. */
  predicate LocaleOfCode(e: LanguageEntry) {
    |e.speechLocale| == |e.code| + 3 && e.speechLocale[..|e.code| + 1] == e.code + "-"
  }

  /** Every entry's speech locale extends its language code. */
  lemma LocalesExtendCodes()
    ensures forall k :: k in LanguageConfig ==> LocaleOfCode(LanguageConfig[k])
  {
  }

  /** `LANGUAGE_CONFIG.get(key, LANGUAGE_CONFIG[DEFAULT_LANGUAGE])`: total, because the default
      key is in the table; unknown keys get the German entry. */
  function Resolve(key: string): (e: LanguageEntry)
    ensures key in LanguageConfig ==> e == LanguageConfig[key]
    ensures key !in LanguageConfig ==> e == LanguageConfig[DefaultLanguage]
    ensures key !in LanguageConfig ==>
      e.code == "de" && e.speechLocale == "de-DE" && e.displayLabel == "Deutsch"
    ensures LocaleOfCode(e)
  {
    LocalesExtendCodes();
    if key in LanguageConfig then LanguageConfig[key] else LanguageConfig[DefaultLanguage]
  }
}
