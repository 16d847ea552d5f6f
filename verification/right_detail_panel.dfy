/**
 * The detail panel of components/layout/RightDetailPanel.tsx: the flag lookup,
 * the filter badges, and the state the panel resets and updates as words are
 * selected and its buttons are pressed.
 *
 * The panel's text constants are kept character for character as the file
 * reads, mis-decoded letters included (the flag table's keys, the filter reset
 * values, the error texts); they are only ever compared for equality.
 * The meaning and AI services are left out: how a request settles is a parameter.
 */
module RightDetailPanel {
  import opened Types

  /** `codeMap` of `getFlagUrl`: language name to country code. */
  const FlagCodes: map<string, string> := map[
    "Fransƒ±zca" := "fr",
    "T√ºrk√ße" := "tr",
    "Fars√ßa" := "ir",
    "ƒ∞talyanca" := "it",
    "ƒ∞ngilizce" := "gb",
    "Arap√ßa" := "sa",
    "Almanca" := "de",
    "Yunanca" := "gr",
    "Hƒ±rvat√ßa" := "hr",
    "√áek√ße" := "cz",
    "Japonca" := "jp",
    "ƒ∞spanyolca" := "es",
    "Rus√ßa" := "ru",
    "Bulgarca" := "bg",
    "Macarca" := "hu",
    "Moƒüolca" := "mn",
    "Sogdca" := "ir",
    "Rumca" := "gr",
    "Sƒ±rp√ßa" := "rs",
    "Latince" := "va"
  ]

  const FlagPrefix: string := "https://flagcdn.com/w40/"
  const FlagSuffix: string := ".png"

  /** `getFlagUrl`: the flag image of a language with a (non-empty) code, or null. */
  function FlagUrl(lang: string): (r: Option<string>)
    ensures r.None? <==> lang !in FlagCodes
    ensures r.Some? ==> |r.value| == |FlagPrefix| + |FlagCodes[lang]| + |FlagSuffix|
  {
    if lang in FlagCodes && FlagCodes[lang] != "" then Some(FlagPrefix + FlagCodes[lang] + FlagSuffix) else None
  }

  /** The country code inside a flag URL. */
  function CodeOfUrl(url: string): string
    requires |url| >= |FlagPrefix| + |FlagSuffix|
  {
    url[|FlagPrefix|..|url| - |FlagSuffix|]
  }

  /** A flag URL has the image service's shape, and the code it names is the table's. */
  lemma FlagUrlShape(lang: string)
    requires lang in FlagCodes
    ensures FlagUrl(lang).Some?
    ensures var url := FlagUrl(lang).value;
            && url[..|FlagPrefix|] == FlagPrefix
            && url[|url| - |FlagSuffix|..] == FlagSuffix
            && CodeOfUrl(url) == FlagCodes[lang]
  {
    var url := FlagUrl(lang).value;
    assert url == FlagPrefix + FlagCodes[lang] + FlagSuffix;
  }

  /** Different URLs always come from different codes, so the URL identifies the flag. */
  lemma FlagUrlInjective(a: string, b: string)
    requires FlagUrl(a).Some? && FlagUrl(b).Some?
    ensures FlagUrl(a) == FlagUrl(b) <==> FlagCodes[a] == FlagCodes[b]
  {
    if FlagUrl(a) == FlagUrl(b) {
      FlagUrlShape(a);
      FlagUrlShape(b);
    }
  }

  /** Every code has two letters, and two pairs of languages share a flag. */
  lemma FlagTableFacts()
    ensures forall lang :: lang in FlagCodes ==> |FlagCodes[lang]| == 2
    ensures FlagCodes["Sogdca"] == "ir" && FlagCodes["Rumca"] == "gr"
  {
  }

  /** The filter reset values the badges send. */
  const LanguageReset: string := "T√ºm Diller"
  const PeriodReset: string := "T√ºm D√∂nemler"

  /** The two filters a badge can drive. */
  datatype FilterType = LanguageFilter | PeriodFilter

  /** A call `onFilterTrigger(type, value)`. */
  datatype Trigger = Trigger(filter: FilterType, value: string)

  /** `handleBadgeClick`: one trigger, for the badge's own filter. */
  function BadgeClick(filter: FilterType, value: string, activeLanguage: string, activePeriod: string): (t: Trigger)
    ensures t.filter == filter
  {
    match filter
    case LanguageFilter => if activeLanguage == value then Trigger(LanguageFilter, LanguageReset) else Trigger(LanguageFilter, value)
    case PeriodFilter => if activePeriod == value then Trigger(PeriodFilter, PeriodReset) else Trigger(PeriodFilter, value)
  }

  /** The active value of a badge's own filter. */
  function ActiveOf(filter: FilterType, activeLanguage: string, activePeriod: string): string
  {
    match filter
    case LanguageFilter => activeLanguage
    case PeriodFilter => activePeriod
  }

  /** The reset value of a filter. */
  function ResetOf(filter: FilterType): string
  {
    match filter
    case LanguageFilter => LanguageReset
    case PeriodFilter => PeriodReset
  }

  /** A badge toggles its filter: the badge of the active value asks for the
      reset value, any other badge for its own value. */
  lemma BadgeClickToggles(filter: FilterType, value: string, activeLanguage: string, activePeriod: string)
    ensures BadgeClick(filter, value, activeLanguage, activePeriod).value ==
            if ActiveOf(filter, activeLanguage, activePeriod) == value then ResetOf(filter) else value
  {
  }

  /** Two clicks on the same badge, where the parent makes the first trigger's
      value the active value of its filter before the second click: a filter
      that was on the value is asked back to it, any other filter to reset. */
  lemma BadgeClickTwice(filter: FilterType, value: string, activeLanguage: string, activePeriod: string)
    ensures var once := BadgeClick(filter, value, activeLanguage, activePeriod);
            var twice := match filter
                         case LanguageFilter => BadgeClick(filter, value, once.value, activePeriod)
                         case PeriodFilter => BadgeClick(filter, value, activeLanguage, once.value);
            twice.value == if ActiveOf(filter, activeLanguage, activePeriod) == value then value else ResetOf(filter)
  {
    BadgeClickToggles(filter, value, activeLanguage, activePeriod);
    var once := BadgeClick(filter, value, activeLanguage, activePeriod);
    match filter {
      case LanguageFilter => BadgeClickToggles(filter, value, once.value, activePeriod);
      case PeriodFilter => BadgeClickToggles(filter, value, activeLanguage, once.value);
    }
  }

  /** The text shown when the meaning or AI service cannot be reached. */
  const ConnectionError: string := "Baƒülantƒ± hatasƒ±."

  /** The text shown when the AI service answers without details. */
  const AnalysisFailed: string := "Analiz yapƒ±lamadƒ±."

  /** The meaning service's answer as the panel keeps it. */
  datatype LiveData = LiveData(meaning: string, example: Option<string>)

  /** How a service request settles. */
  datatype Outcome<T> = Answered(data: T) | Threw

  /** Which form the modal shows. */
  datatype ModalType = Suggestion | Report

  /** The AI text the panel shows for an outcome: an empty or missing answer
      and a failed request each have their own message. */
  function AiText(outcome: Outcome<Option<string>>): (s: string)
    ensures s == ConnectionError <==> outcome.Threw? || (outcome.data.Some? && outcome.data.value == ConnectionError)
    ensures s == AnalysisFailed <==> outcome.Answered? && (outcome.data.None? || outcome.data.value in {"", AnalysisFailed})
    ensures outcome.Answered? && outcome.data.Some? && outcome.data.value != "" ==> s == outcome.data.value
  {
    match outcome
    case Threw => ConnectionError
    case Answered(details) => if details.None? || details.value == "" then AnalysisFailed else details.value
  }

  /** The panel's own state. */
  class Panel {
    var isVisible: bool
    var isMinimized: bool
    var liveData: Option<LiveData>
    var isLoading: bool
    var aiDetails: Option<string>
    var isAiLoading: bool
    var isModalOpen: bool
    var modalType: ModalType
    var isReported: bool

    /** The state the component mounts with. */
    constructor()
      ensures !isVisible && !isMinimized && liveData == None && !isLoading
      ensures aiDetails == None && !isAiLoading && !isModalOpen && modalType == Suggestion && !isReported
    {
      isVisible := false;
      isMinimized := false;
      liveData := None;
      isLoading := false;
      aiDetails := None;
      isAiLoading := false;
      isModalOpen := false;
      modalType := Suggestion;
      isReported := false;
    }

    /** The effect run when the selected word changes: a word opens the panel
        afresh and starts loading its meaning; null leaves the state alone. */
    method OnWordChange(word: Option<Word>)
      modifies this
      ensures word.Some? ==> && isVisible && !isMinimized && isLoading && liveData == None
                             && !isReported && aiDetails == None && !isAiLoading
      ensures word.None? ==> && isVisible == old(isVisible) && isMinimized == old(isMinimized)
                             && isLoading == old(isLoading) && liveData == old(liveData)
                             && isReported == old(isReported) && aiDetails == old(aiDetails)
                             && isAiLoading == old(isAiLoading)
      ensures isModalOpen == old(isModalOpen) && modalType == old(modalType)
    {
      if word.Some? {
        isVisible := true;
        isMinimized := false;
        isLoading := true;
        liveData := None;
        isReported := false;
        aiDetails := None;
        isAiLoading := false;
      }
    }

    /** The meaning request settles; once the word has changed or the panel has
        unmounted (`isMounted` false) nothing happens. */
    method MeaningSettled(outcome: Outcome<LiveData>, isMounted: bool)
      modifies this
      ensures isMounted ==> && !isLoading
                            && liveData == Some(if outcome.Answered? then outcome.data else LiveData(ConnectionError, None))
      ensures !isMounted ==> isLoading == old(isLoading) && liveData == old(liveData)
      ensures isVisible == old(isVisible) && isMinimized == old(isMinimized) && aiDetails == old(aiDetails)
      ensures isAiLoading == old(isAiLoading) && isReported == old(isReported)
      ensures isModalOpen == old(isModalOpen) && modalType == old(modalType)
    {
      if isMounted {
        match outcome {
          case Answered(data) =>
            liveData := Some(data);
          case Threw =>
            liveData := Some(LiveData(ConnectionError, None));
        }
        isLoading := false;
      }
    }

    /** The start of `handleFetchAiDetails`: with a word, the AI request is
        in flight (`setIsAiLoading(true)`); without one nothing happens. */
    method StartAiFetch(word: Option<Word>)
      modifies this
      ensures word.Some? ==> isAiLoading
      ensures word.None? ==> isAiLoading == old(isAiLoading)
      ensures aiDetails == old(aiDetails)
      ensures isVisible == old(isVisible) && isMinimized == old(isMinimized) && liveData == old(liveData)
      ensures isLoading == old(isLoading) && isReported == old(isReported)
      ensures isModalOpen == old(isModalOpen) && modalType == old(modalType)
    {
      if word.Some? {
        isAiLoading := true;
      }
    }

    /** The awaited AI request settles: its text is shown and loading ends
        in `finally`. Nothing checks that the selected word is still the one
        the request was made for. */
    method AiSettled(outcome: Outcome<Option<string>>)
      modifies this
      ensures !isAiLoading && aiDetails == Some(AiText(outcome))
      ensures isVisible == old(isVisible) && isMinimized == old(isMinimized) && liveData == old(liveData)
      ensures isLoading == old(isLoading) && isReported == old(isReported)
      ensures isModalOpen == old(isModalOpen) && modalType == old(modalType)
    {
      match outcome {
        case Threw =>
          aiDetails := Some(ConnectionError);
        case Answered(details) =>
          aiDetails := Some(if details.None? || details.value == "" then AnalysisFailed else details.value);
      }
      isAiLoading := false;
    }

    /** `toggleMinimize`. */
    method ToggleMinimize()
      modifies this
      ensures isMinimized == !old(isMinimized)
      ensures isVisible == old(isVisible) && liveData == old(liveData) && isLoading == old(isLoading)
      ensures aiDetails == old(aiDetails) && isAiLoading == old(isAiLoading) && isReported == old(isReported)
      ensures isModalOpen == old(isModalOpen) && modalType == old(modalType)
    {
      isMinimized := !isMinimized;
    }

    /** `handleClose`: hides the panel; the parent's `onClose` follows after a delay. */
    method HandleClose()
      modifies this
      ensures !isVisible
      ensures isMinimized == old(isMinimized) && liveData == old(liveData) && isLoading == old(isLoading)
      ensures aiDetails == old(aiDetails) && isAiLoading == old(isAiLoading) && isReported == old(isReported)
      ensures isModalOpen == old(isModalOpen) && modalType == old(modalType)
    {
      isVisible := false;
    }

    /** `handleOpenSuggestion` (kind `Suggestion`) and `handleOpenReport` (kind `Report`). */
    method OpenModal(kind: ModalType)
      modifies this
      ensures isModalOpen && modalType == kind
      ensures isVisible == old(isVisible) && isMinimized == old(isMinimized) && liveData == old(liveData)
      ensures isLoading == old(isLoading) && aiDetails == old(aiDetails) && isAiLoading == old(isAiLoading)
      ensures isReported == old(isReported)
    {
      modalType := kind;
      isModalOpen := true;
    }

    /** `handleSuccess`: a sent report marks the word reported, a suggestion changes nothing. */
    method HandleSuccess()
      modifies this
      ensures isReported == (old(isReported) || modalType == Report)
      ensures isVisible == old(isVisible) && isMinimized == old(isMinimized) && liveData == old(liveData)
      ensures isLoading == old(isLoading) && aiDetails == old(aiDetails) && isAiLoading == old(isAiLoading)
      ensures isModalOpen == old(isModalOpen) && modalType == old(modalType)
    {
      if modalType == Report {
        isReported := true;
      }
    }

    /** Whether the component draws anything: not while there is no word and it is hidden. */
    predicate Renders(word: Option<Word>)
      reads this
    {
      word.Some? || isVisible
    }
  }

  /** Whatever was shown before, a report sent about a word newly selected
      marks it reported, and a suggestion leaves it unreported. */
  method ReportFlow(p: Panel, w: Word, kind: ModalType)
    modifies p
    ensures p.isReported <==> kind == Report
    ensures p.isVisible && p.Renders(Some(w)) && p.isModalOpen
  {
    p.OnWordChange(Some(w));
    p.OpenModal(kind);
    p.HandleSuccess();
  }

  /** An AI request for one word that settles after another word is selected:
      while it is in flight the panel shows it loading, the new word clears the
      AI text, and then the old word's answer is shown for the new word. */
  method StaleAiAnswer(p: Panel, first: Word, second: Word, outcome: Outcome<Option<string>>)
    returns (inFlight: bool, afterSwitch: Option<string>)
    modifies p
    ensures inFlight && afterSwitch == None
    ensures p.isVisible && !p.isAiLoading && p.aiDetails == Some(AiText(outcome))
  {
    p.StartAiFetch(Some(first));
    inFlight := p.isAiLoading;
    p.OnWordChange(Some(second));
    afterSwitch := p.aiDetails;
    p.AiSettled(outcome);
  }
}
