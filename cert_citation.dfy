/** The citation panel of `cert-citation.js`: metadata -> report DOI -> citation record
    -> formatted text, with the copy button.

    The citation engine is an oracle: `resolve` stands for `Cite.async(doi)` and `format`
    for `citationData.format(...)`. The metadata fetch is its outcome (`Metadata`). The
    page is three fields: whether the citation section is displayed, the text of the
    preview and whether the copy confirmation is displayed. */
module CertCitation {
  import opened Wrappers
  import opened Text

  // ---------------------------------------------------------------------------
  // Format selection
  // ---------------------------------------------------------------------------

  /** What `citationData.format` is asked for: an en-US text bibliography in a CSL
      template, or a direct export in the named format. */
  datatype FormatRequest = Bibliography(template: string) | Direct(kind: string)

  /** The selector values rendered through a bibliography template. */
  const TextStyles: set<string> := {"apa", "vancouver", "harvard1"}
  /** The selector values passed straight to the engine as an output kind. */
  const ExportKinds: set<string> := {"bibtex", "biblatex", "ris"}

  /** The style or format a request names. */
  function RequestedName(r: FormatRequest): string
  {
    match r
    case Bibliography(template) => template
    case Direct(kind) => kind
  }

  /** The `switch (format)` of `updateCitation`. */
  function Selection(format: string): (r: FormatRequest)
    ensures r.Direct? <==> format in ExportKinds
    ensures format in TextStyles + ExportKinds ==> RequestedName(r) == format
    ensures format !in TextStyles + ExportKinds ==> r == Bibliography("apa")
  {
    if format == "apa" then Bibliography("apa")
    else if format == "vancouver" then Bibliography("vancouver")
    else if format == "harvard1" then Bibliography("harvard1")
    else if format == "bibtex" then Direct("bibtex")
    else if format == "biblatex" then Direct("biblatex")
    else if format == "ris" then Direct("ris")
    else Bibliography("apa")
  }

  /** The six selector values give six different requests. */
  lemma SelectionDistinguishesStyles(f: string, g: string)
    requires f in TextStyles + ExportKinds && g in TextStyles + ExportKinds
    ensures Selection(f) == Selection(g) <==> f == g
  {
  }

  // ---------------------------------------------------------------------------
  // Messages (the text the preview shows; the HTML markup is left out)
  // ---------------------------------------------------------------------------

  const LibraryMissingMessage: string := "Citation library not loaded. Please refresh the page."
  const MetadataErrorMessage: string := "Error loading certificate metadata."

  /** The preview text after a failed resolution; it names the DOI. */
  function LoadErrorMessage(doi: string): (m: string)
    ensures Mentions(m, doi)
  {
    MentionsSpliced("Error loading citation data from ", doi, ". Please try again later.");
    "Error loading citation data from " + doi + ". Please try again later."
  }

  /** The preview text after a failed formatting; it names the requested format. */
  function FormatErrorMessage(format: string): (m: string)
    ensures Mentions(m, format)
  {
    MentionsSpliced("Error formatting citation in ", format, " format.");
    "Error formatting citation in " + format + " format."
  }

  // ---------------------------------------------------------------------------
  // The engine and the metadata
  // ---------------------------------------------------------------------------

  /** The citation engine as an oracle over an opaque record type. */
  datatype Engine<!Rec> = Engine(
    resolve: string -> Outcome<Rec>,
    format: (Rec, FormatRequest) -> Outcome<string>)

  /** The value of `metadata.codecheck?.report`, as far as the script can tell. */
  datatype ReportField =
    | Missing                  // `codecheck` or `report` absent, or null
    | NonString(truthy: bool)  // a number, boolean, array or object
    | Str(s: string)

  /** The outcome of `fetchCertificateMetadata` together with the property read. */
  datatype Metadata =
    | Unavailable              // transport error, non-2xx status, unparsable body
    | Loaded(report: ReportField)

  /** JavaScript truthiness of the report value: an absent value is falsy, and a
      string is truthy exactly when it is non-empty, whitespace or not. */
  predicate Truthy(f: ReportField)
    ensures Truthy(f) ==> !f.Missing?
    ensures f.Str? ==> (Truthy(f) <==> |f.s| > 0)
  {
    match f
    case Missing => false
    case NonString(t) => t
    case Str(s) => s != []
  }

  /** The DOI `loadCitation` treats as absent: falsy, or a string that trims to ''.
      That is a falsy value or a string of whitespace only; the values that pass the
      metadata's truthiness test and are still blank are non-empty whitespace strings. */
  predicate IsBlankDoi(f: ReportField)
    ensures IsBlankDoi(f) <==>
      !Truthy(f) || (f.Str? && forall i :: 0 <= i < |f.s| ==> IsJsWhitespace(f.s[i]))
    ensures Truthy(f) && IsBlankDoi(f) ==> f.Str? && f.s != []
  {
    !Truthy(f) || (f.Str? && IsBlank(f.s))
  }

  // ---------------------------------------------------------------------------
  // Rendering
  // ---------------------------------------------------------------------------

  /** What `updateCitation` leaves in `currentCitation` and the preview. */
  datatype Rendering = Rendering(citation: string, preview: string)

  /** `updateCitation` once a record is loaded: format the record as `selected` asks;
      on success the citation is the trimmed output and the preview shows it, on
      failure the previous citation stays and the preview names the format. */
  function Render<Rec>(format: (Rec, FormatRequest) -> Outcome<string>, rec: Rec, selected: string, previous: string): (r: Rendering)
    ensures format(rec, Selection(selected)).Ok? ==>
      r.citation == Trim(format(rec, Selection(selected)).value) && r.preview == r.citation
    ensures format(rec, Selection(selected)).Fail? ==>
      r.citation == previous && Mentions(r.preview, selected)
    ensures Trim(previous) == previous ==> Trim(r.citation) == r.citation
  {
    match format(rec, Selection(selected))
    case Ok(text) =>
      TrimIdempotent(text);
      Rendering(Trim(text), Trim(text))
    case Fail =>
      Rendering(previous, FormatErrorMessage(selected))
  }

  /** A selector value outside the six styles yields the apa citation; only a failure
      message differs, naming the value actually selected. */
  lemma UnknownFormatRendersApa<Rec>(format: (Rec, FormatRequest) -> Outcome<string>, rec: Rec, selected: string, previous: string)
    requires selected !in TextStyles + ExportKinds
    ensures Render(format, rec, selected, previous).citation == Render(format, rec, "apa", previous).citation
    ensures format(rec, Selection("apa")).Ok? ==> Render(format, rec, selected, previous) == Render(format, rec, "apa", previous)
  {
  }

  /** Re-rendering with the same selection changes nothing: formatting is a function
      of the record and the selection. */
  lemma RenderIdempotent<Rec>(format: (Rec, FormatRequest) -> Outcome<string>, rec: Rec, selected: string, previous: string)
    ensures Render(format, rec, selected, Render(format, rec, selected, previous).citation) == Render(format, rec, selected, previous)
  {
  }

  // ---------------------------------------------------------------------------
  // The panel
  // ---------------------------------------------------------------------------

  /** The globals `citationData` and `currentCitation` of `cert-citation.js` with the
      page elements they drive. */
  class CitationPanel<Rec> {
    /** The engine, or None when `Cite` is undefined. */
    const engine: Option<Engine<Rec>>

    var citationData: Option<Rec>
    var currentCitation: string
    /** The value of the `citation-format` selector. */
    var selectedFormat: string
    var sectionVisible: bool
    var previewText: string
    var feedbackVisible: bool
    /** Two-second feedback hides scheduled and not yet run. */
    var pendingFeedbackHides: nat
    /** "Copy manually" alerts shown. */
    var manualCopyPrompts: nat
    /** Whether the change and click listeners are registered. */
    var listening: bool
    /** The DOIs handed to the engine, in order. */
    ghost var resolveCalls: seq<string>

    ghost predicate Valid()
      reads this
    {
      (citationData.Some? ==> engine.Some?) &&
      (currentCitation != [] ==> citationData.Some?) &&
      Trim(currentCitation) == currentCitation
    }

    /** The page before any script ran. */
    constructor (engine: Option<Engine<Rec>>, placeholder: string, initialFormat: string)
      ensures Valid()
      ensures this.engine == engine && citationData.None? && currentCitation == []
      ensures selectedFormat == initialFormat && sectionVisible && previewText == placeholder
      ensures !feedbackVisible && pendingFeedbackHides == 0 && manualCopyPrompts == 0
      ensures !listening && resolveCalls == []
    {
      this.engine := engine;
      citationData := None;
      currentCitation := [];
      selectedFormat := initialFormat;
      sectionVisible := true;
      previewText := placeholder;
      feedbackVisible := false;
      pendingFeedbackHides := 0;
      manualCopyPrompts := 0;
      listening := false;
      resolveCalls := [];
    }

    /** `updateCitation`: nothing without a record; otherwise render the record in the
        selected format. */
    method UpdateCitation()
      requires Valid()
      modifies this`currentCitation, this`previewText
      ensures Valid()
      ensures citationData.None? ==> unchanged(this)
      ensures citationData.Some? ==>
        Rendering(currentCitation, previewText) ==
        Render(engine.value.format, citationData.value, selectedFormat, old(currentCitation))
    {
      if citationData.None? {
        return;
      }
      var format := selectedFormat;
      match engine.value.format(citationData.value, Selection(format))
      case Ok(citation) =>
        TrimIdempotent(citation);
        currentCitation := Trim(citation);
        previewText := currentCitation;
      case Fail =>
        previewText := FormatErrorMessage(format);
    }

    /** `loadCitation(doi)`. A blank DOI hides the section. A truthy non-string DOI makes
        `trim` throw (`threw`), changing nothing. Without the engine the preview reports
        it. Otherwise the DOI is resolved once: a record is stored and rendered, a
        failure leaves the record alone and names the DOI in the preview. */
    method LoadCitation(doi: ReportField) returns (threw: bool)
      requires Valid()
      modifies this`sectionVisible, this`previewText, this`citationData, this`currentCitation, this`resolveCalls
      ensures Valid()
      ensures threw <==> Truthy(doi) && doi.NonString?
      ensures threw ==> unchanged(this)
      ensures IsBlankDoi(doi) ==>
        !sectionVisible && previewText == old(previewText) && citationData == old(citationData) &&
        currentCitation == old(currentCitation) && resolveCalls == old(resolveCalls)
      ensures doi.Str? && !IsBlank(doi.s) && engine.None? ==>
        previewText == LibraryMissingMessage && sectionVisible == old(sectionVisible) &&
        citationData == old(citationData) && currentCitation == old(currentCitation) &&
        resolveCalls == old(resolveCalls)
      ensures doi.Str? && !IsBlank(doi.s) && engine.Some? ==>
        sectionVisible == old(sectionVisible) && resolveCalls == old(resolveCalls) + [doi.s]
      ensures doi.Str? && !IsBlank(doi.s) && engine.Some? && engine.value.resolve(doi.s).Ok? ==>
        citationData == Some(engine.value.resolve(doi.s).value) &&
        Rendering(currentCitation, previewText) ==
        Render(engine.value.format, citationData.value, selectedFormat, old(currentCitation))
      ensures doi.Str? && !IsBlank(doi.s) && engine.Some? && engine.value.resolve(doi.s).Fail? ==>
        citationData == old(citationData) && currentCitation == old(currentCitation) &&
        previewText == LoadErrorMessage(doi.s)
    {
      threw := false;
      if IsBlankDoi(doi) {
        sectionVisible := false;
        return;
      }
      if doi.NonString? {
        threw := true;
        return;
      }
      var s := doi.s;
      if engine.None? {
        previewText := LibraryMissingMessage;
        return;
      }
      resolveCalls := resolveCalls + [s];
      match engine.value.resolve(s)
      case Ok(rec) =>
        citationData := Some(rec);
        UpdateCitation();
      case Fail =>
        previewText := LoadErrorMessage(s);
    }

    /** `copyCitation`: with no citation nothing happens; otherwise the citation is
        handed to the clipboard (`written`), and the write either shows the feedback
        and schedules its hide, or prompts a manual copy. */
    method CopyCitation(writeSucceeds: bool) returns (written: Option<string>)
      requires Valid()
      modifies this`feedbackVisible, this`pendingFeedbackHides, this`manualCopyPrompts
      ensures Valid()
      ensures currentCitation == [] ==> written.None? && unchanged(this)
      ensures currentCitation != [] ==> written == Some(currentCitation)
      ensures currentCitation != [] && writeSucceeds ==>
        feedbackVisible && pendingFeedbackHides == old(pendingFeedbackHides) + 1 &&
        manualCopyPrompts == old(manualCopyPrompts)
      ensures currentCitation != [] && !writeSucceeds ==>
        feedbackVisible == old(feedbackVisible) && pendingFeedbackHides == old(pendingFeedbackHides) &&
        manualCopyPrompts == old(manualCopyPrompts) + 1
    {
      if currentCitation == [] {
        return None;
      }
      written := Some(currentCitation);
      if writeSucceeds {
        feedbackVisible := true;
        pendingFeedbackHides := pendingFeedbackHides + 1;
      } else {
        manualCopyPrompts := manualCopyPrompts + 1;
      }
    }

    /** The two-second timeout after a copy hides the feedback. */
    method FeedbackTimeout()
      requires Valid() && pendingFeedbackHides > 0
      modifies this`feedbackVisible, this`pendingFeedbackHides
      ensures Valid()
      ensures !feedbackVisible && pendingFeedbackHides == old(pendingFeedbackHides) - 1
    {
      feedbackVisible := false;
      pendingFeedbackHides := pendingFeedbackHides - 1;
    }

    /** The user picks `value` in the selector; the change listener re-renders. */
    method FormatChanged(value: string)
      requires Valid()
      modifies this`selectedFormat, this`currentCitation, this`previewText
      ensures Valid()
      ensures selectedFormat == value
      ensures !listening || citationData.None? ==>
        currentCitation == old(currentCitation) && previewText == old(previewText)
      ensures listening && citationData.Some? ==>
        Rendering(currentCitation, previewText) ==
        Render(engine.value.format, citationData.value, value, old(currentCitation))
    {
      selectedFormat := value;
      if listening {
        UpdateCitation();
      }
    }

    /** The user clicks the copy button; the click listener copies. */
    method CopyClicked(writeSucceeds: bool) returns (written: Option<string>)
      requires Valid()
      modifies this`feedbackVisible, this`pendingFeedbackHides, this`manualCopyPrompts
      ensures Valid()
      ensures !listening || currentCitation == [] ==> written.None? && unchanged(this)
      ensures listening && currentCitation != [] ==> written == Some(currentCitation)
      ensures listening && currentCitation != [] && writeSucceeds ==>
        feedbackVisible && pendingFeedbackHides == old(pendingFeedbackHides) + 1 &&
        manualCopyPrompts == old(manualCopyPrompts)
      ensures listening && currentCitation != [] && !writeSucceeds ==>
        feedbackVisible == old(feedbackVisible) && pendingFeedbackHides == old(pendingFeedbackHides) &&
        manualCopyPrompts == old(manualCopyPrompts) + 1
    {
      written := None;
      if listening {
        written := CopyCitation(writeSucceeds);
      }
    }

    /** `initializeCitationGenerator`: wire the selector and the copy button, then
        with the metadata: unavailable -> metadata error; a falsy report -> hide the
        section without loading; otherwise `loadCitation`, whose throw is reported as
        a metadata error. */
    method InitializeCitationGenerator(metadata: Metadata)
      requires Valid()
      modifies this`listening, this`sectionVisible, this`previewText, this`citationData, this`currentCitation, this`resolveCalls
      ensures Valid()
      ensures listening
      ensures metadata.Unavailable? ==>
        previewText == MetadataErrorMessage && sectionVisible == old(sectionVisible) &&
        citationData == old(citationData) && currentCitation == old(currentCitation) &&
        resolveCalls == old(resolveCalls)
      ensures metadata.Loaded? && !Truthy(metadata.report) ==>
        !sectionVisible && previewText == old(previewText) &&
        citationData == old(citationData) && currentCitation == old(currentCitation) &&
        resolveCalls == old(resolveCalls)
      ensures metadata.Loaded? && metadata.report.NonString? && Truthy(metadata.report) ==>
        previewText == MetadataErrorMessage && sectionVisible == old(sectionVisible) &&
        citationData == old(citationData) && currentCitation == old(currentCitation) &&
        resolveCalls == old(resolveCalls)
      ensures metadata.Loaded? && metadata.report.Str? && IsBlank(metadata.report.s) ==>
        !sectionVisible && previewText == old(previewText) &&
        citationData == old(citationData) && currentCitation == old(currentCitation) &&
        resolveCalls == old(resolveCalls)
      ensures metadata.Loaded? && metadata.report.Str? && !IsBlank(metadata.report.s) && engine.None? ==>
        previewText == LibraryMissingMessage && sectionVisible == old(sectionVisible) &&
        citationData == old(citationData) && currentCitation == old(currentCitation) &&
        resolveCalls == old(resolveCalls)
      ensures metadata.Loaded? && metadata.report.Str? && !IsBlank(metadata.report.s) && engine.Some? ==>
        resolveCalls == old(resolveCalls) + [metadata.report.s] && sectionVisible == old(sectionVisible)
      ensures (metadata.Loaded? && metadata.report.Str? && !IsBlank(metadata.report.s) && engine.Some? &&
               engine.value.resolve(metadata.report.s).Ok?) ==>
        citationData == Some(engine.value.resolve(metadata.report.s).value) &&
        Rendering(currentCitation, previewText) ==
        Render(engine.value.format, citationData.value, selectedFormat, old(currentCitation))
      ensures (metadata.Loaded? && metadata.report.Str? && !IsBlank(metadata.report.s) && engine.Some? &&
               engine.value.resolve(metadata.report.s).Fail?) ==>
        citationData == old(citationData) && currentCitation == old(currentCitation) &&
        previewText == LoadErrorMessage(metadata.report.s)
    {
      listening := true;
      match metadata
      case Unavailable =>
        previewText := MetadataErrorMessage;
      case Loaded(report) =>
        if !Truthy(report) {
          sectionVisible := false;
          return;
        }
        var threw := LoadCitation(report);
        if threw {
          previewText := MetadataErrorMessage;
        }
    }
  }

  // ---------------------------------------------------------------------------
  // Scenarios
  // ---------------------------------------------------------------------------

  /** The report DOI of the sample metadata. */
  const SampleDoi: string := "10.1234/xyz"

  /** The apa text the sample engine produces. */
  const SampleApa: string := "Doe, J. (2024). CODECHECK certificate."

  /** The sample DOI is not blank. */
  lemma SampleDoiNotBlank()
    ensures !IsBlank(SampleDoi)
  {
    assert SampleDoi[0] == '1';
    assert !IsJsWhitespace(SampleDoi[0]);
  }

  /** The sample text is its own trim, also after the engine's trailing newline. */
  lemma SampleApaTrimmed()
    ensures Trim(SampleApa) == SampleApa && Trim(SampleApa + "\n") == SampleApa
  {
    assert SampleApa[0] == 'D';
    assert SampleApa[|SampleApa| - 1] == '.';
    assert !IsJsWhitespace(SampleApa[0]) && !IsJsWhitespace(SampleApa[|SampleApa| - 1]);
    TrimOfTrimmed(SampleApa);
    assert "\n"[0] == '\n';
    TrimDropsPadding(SampleApa, "\n");
  }

  /** An engine that knows one DOI and renders it only in apa. */
  function SampleEngine(): Engine<int>
  {
    Engine(
      (doi: string) => if doi == SampleDoi then Ok(7) else Fail,
      (rec: int, req: FormatRequest) => if req == Bibliography("apa") then Ok(SampleApa + "\n") else Fail)
  }

  /** Metadata `{"codecheck": {"report": "10.1234/xyz"}}` with a working engine: the
      section stays visible, apa is selected and the preview shows the trimmed text. */
  method ReportDoiLoads() returns (visible: bool, format: string, preview: string, citation: string)
    ensures visible && format == "apa" && preview == SampleApa && citation == SampleApa
  {
    var panel := new CitationPanel<int>(Some(SampleEngine()), "Loading citation...", "apa");
    SampleDoiNotBlank();
    SampleApaTrimmed();
    assert SampleEngine().resolve(SampleDoi) == Ok(7);
    assert SampleEngine().format(7, Selection("apa")) == Ok(SampleApa + "\n");
    panel.InitializeCitationGenerator(Loaded(Str(SampleDoi)));
    visible, format, preview, citation := panel.sectionVisible, panel.selectedFormat, panel.previewText, panel.currentCitation;
  }

  /** Metadata `{}`: the section is hidden and the engine is never asked. */
  method EmptyMetadataHides() returns (visible: bool, preview: string)
    ensures !visible && preview == "Loading citation..."
  {
    var panel := new CitationPanel<int>(Some(SampleEngine()), "Loading citation...", "apa");
    panel.InitializeCitationGenerator(Loaded(Missing));
    assert panel.resolveCalls == [];
    visible, preview := panel.sectionVisible, panel.previewText;
  }

  /** From apa to bibtex on a loaded record whose bibtex export fails: the copy buffer
      keeps the apa text while the preview reports the bibtex failure. */
  method FailedStyleKeepsLastCitation() returns (citation: string, preview: string)
    ensures citation == SampleApa
    ensures preview == FormatErrorMessage("bibtex") && Mentions(preview, "bibtex")
  {
    var panel := new CitationPanel<int>(Some(SampleEngine()), "Loading citation...", "apa");
    SampleDoiNotBlank();
    SampleApaTrimmed();
    assert SampleEngine().resolve(SampleDoi) == Ok(7);
    assert SampleEngine().format(7, Selection("apa")) == Ok(SampleApa + "\n");
    panel.InitializeCitationGenerator(Loaded(Str(SampleDoi)));
    assert SampleEngine().format(7, Selection("bibtex")) == Fail;
    panel.FormatChanged("bibtex");
    citation, preview := panel.currentCitation, panel.previewText;
  }
}
