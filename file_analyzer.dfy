/** The study generator screen (components/FileAnalyzer.tsx): an uploaded
    file is checked against the supported types and read as a data URL
    whose base 64 payload is kept for the study-guide request; a learning
    roadmap is generated for a topic and can be exported as a plain-text
    file. The requests are given by their reply texts; the file reader, the
    download link and the alert box are outside the model, and the model
    records the downloads and alerts instead. */
module FileAnalyzer {
  import opened Wrappers
  import opened Strings
  import opened JsValue
  import opened JsonRecovery
  import opened Coercers

  /** The MIME types the analyzer accepts. */
  const AllowedTypes: seq<string> := [
    "image/jpeg", "image/png", "image/webp",
    "application/pdf",
    "audio/mpeg", "audio/mp3", "audio/wav", "audio/aac", "audio/x-m4a"
  ]

  function UnsupportedTypeError(mimeType: string): string {
    "Unsupported file type: " + mimeType + ". Please upload Images, PDFs, or Audio files."
  }

  const StudyGuideError: string := "Failed to generate study materials. Please try a different file."
  const RoadmapError: string := "Failed to generate roadmap. Please try again."
  const ExportAlert: string := "Failed to export file."

  /** The separator line of the exported roadmap: forty dashes. */
  const Rule: string := "----------------------------------------"

  /** The file as the study-guide request receives it. `base64` is
      `undefined` when the data URL has no comma. */
  datatype FileData = FileData(base64: Option<string>, mimeType: string)

  datatype Icon = GenericIcon | AudioIcon | PdfIcon | ImageIcon

  datatype StudyTab = Summary | Vocabulary

  /** `result.split(',')[1]`: the text between the first and the second
      comma of the data URL. */
  function DataUrlPayload(result: string): (r: Option<string>)
    ensures r.Some? ==> ',' !in r.value
  {
    var parts := Split(result, ',');
    if |parts| >= 2 then Some(parts[1]) else None
  }

  /** A data URL `header,payload` gives its payload back. */
  lemma DataUrlPayloadOf(header: string, payload: string)
    requires ',' !in header && ',' !in payload
    ensures DataUrlPayload(header + "," + payload) == Some(payload)
  {
    SplitJoin([header, payload], ',');
    assert Join([header, payload], ',') == header + "," + payload;
  }

  /** A data URL without a comma has no payload. */
  lemma DataUrlWithoutComma(result: string)
    requires ',' !in result
    ensures DataUrlPayload(result).None?
  {
    SplitJoin([result], ',');
  }

  /** `renderFileIconSmall`: the icon for the selected file's type. */
  function FileIcon(mimeType: Option<string>): Icon {
    if mimeType.None? then GenericIcon
    else if StartsWith(mimeType.value, "audio/") then AudioIcon
    else if mimeType.value == "application/pdf" then PdfIcon
    else if StartsWith(mimeType.value, "image/") then ImageIcon
    else GenericIcon
  }

  /** The audio prefix is checked first; as the PDF type and the image
      prefix cannot be audio types, each icon stands for exactly one family
      of types. */
  lemma FileIconIff(t: string)
    ensures FileIcon(Some(t)) == AudioIcon <==> StartsWith(t, "audio/")
    ensures FileIcon(Some(t)) == PdfIcon <==> t == "application/pdf"
    ensures FileIcon(Some(t)) == ImageIcon <==> StartsWith(t, "image/")
    ensures FileIcon(Some(t)) == GenericIcon <==> !StartsWith(t, "audio/") && t != "application/pdf" && !StartsWith(t, "image/")
  {
    if t == "application/pdf" {
      assert t[0..6] != "audio/" by { assert t[1] != "audio/"[1]; }
      assert t[0..6] != "image/" by { assert t[0] != "image/"[0]; }
    }
    if StartsWith(t, "image/") {
      assert t[0..6] != "audio/" by { assert t[0] != "audio/"[0]; }
    }
  }

  /** Every accepted type has an icon of its own family. */
  lemma AllowedTypesHaveIcons(i: nat)
    requires i < |AllowedTypes|
    ensures FileIcon(Some(AllowedTypes[i])) != GenericIcon
    ensures i < 3 ==> FileIcon(Some(AllowedTypes[i])) == ImageIcon
    ensures i == 3 ==> FileIcon(Some(AllowedTypes[i])) == PdfIcon
    ensures i > 3 ==> FileIcon(Some(AllowedTypes[i])) == AudioIcon
  {
    var t := AllowedTypes[i];
    FileIconIff(t);
    if i < 3 {
      assert t[..6] == "image/";
    } else if i > 3 {
      assert t[..6] == "audio/";
    }
  }

  /** `(title || fallback)` as a string: `None` when the title is a truthy
      value that is not a string, whose `toUpperCase` or `replace` throws. */
  function TitleText(title: Json, fallback: string): (r: Option<string>)
    ensures !Truthy(title) ==> r == Some(fallback)
    ensures Truthy(title) ==> (r.Some? <==> title.JStr?)
    ensures Truthy(title) && title.JStr? ==> r == Some(title.s)
  {
    if !Truthy(title) then Some(fallback)
    else if title.JStr? then Some(title.s)
    else None
  }

  /** The header lines of the export, one function per line the source
      appends. */
  function TitleLine(title: string): string {
    "LEARNING ROADMAP: " + ToUpper(title) + "\n"
  }

  function DifficultyLine(r: Roadmap): string {
    "Difficulty: " + TemplateStr(r.difficulty) + "\n"
  }

  function DescriptionLine(r: Roadmap): string {
    "Description: " + TemplateStr(r.description) + "\n\n"
  }

  const RuleLines: string := Rule + "\n\n"

  /** The lines before the first phase. */
  function Header(r: Roadmap, title: string): string {
    TitleLine(title) + DifficultyLine(r) + DescriptionLine(r) + RuleLines
  }

  /** The concatenation of strings, in order. */
  function Concat(pieces: seq<string>): string
    decreases |pieces|
  {
    if |pieces| == 0 then "" else Concat(pieces[..|pieces| - 1]) + pieces[|pieces| - 1]
  }

  /** Concatenating the first pieces and then the others. */
  lemma {:induction false} ConcatSplit(pieces: seq<string>, n: nat)
    requires n <= |pieces|
    ensures Concat(pieces) == Concat(pieces[..n]) + Concat(pieces[n..])
    decreases |pieces|
  {
    if n == |pieces| {
      assert pieces[..n] == pieces;
      assert pieces[n..] == [];
    } else {
      var m := |pieces| - 1;
      var rest := pieces[n..];
      assert pieces[..m][..n] == pieces[..n];
      assert rest[..|rest| - 1] == pieces[..m][n..];
      assert rest[|rest| - 1] == pieces[m];
      ConcatSplit(pieces[..m], n);
    }
  }

  /** Appending one more piece. */
  lemma ConcatStep(pieces: seq<string>, i: nat)
    requires i < |pieces|
    ensures Concat(pieces[..i + 1]) == Concat(pieces[..i]) + pieces[i]
  {
    assert pieces[..i + 1][..i] == pieces[..i];
  }

  /** Piece `i` occurs in the concatenation right after the pieces before
      it. */
  lemma ConcatPieceAt(pieces: seq<string>, i: nat)
    requires i < |pieces|
    ensures OccursAt(Concat(pieces), pieces[i], |Concat(pieces[..i])|)
  {
    ConcatSplit(pieces, i + 1);
    ConcatStep(pieces, i);
    var front := Concat(pieces[..i + 1]);
    OccursAtEnd(Concat(pieces[..i]), pieces[i]);
    OccursAtStart(front, Concat(pieces[i + 1..]));
    OccursWithin(Concat(pieces), front, 0, pieces[i], |Concat(pieces[..i])|);
  }

  lemma Assoc(a: string, b: string, c: string)
    ensures a + b + c == a + (b + c)
  {
  }

  function TopicLine(topic: Json): string {
    "  - " + ToStr(topic) + "\n"
  }

  function TopicLineList(topics: seq<Json>): (r: seq<string>)
    ensures |r| == |topics|
  {
    seq(|topics|, k requires 0 <= k < |topics| => TopicLine(topics[k]))
  }

  /** The topic lines of a phase, in order. */
  function TopicLines(topics: seq<Json>): string {
    Concat(TopicLineList(topics))
  }

  /** A phase's `topics.forEach` only runs on an array. */
  predicate HasTopicList(phase: Json) {
    Get(phase, "topics").Some? && Get(phase, "topics").value.JArr?
  }

  /** The topic list of a phase that has one. */
  function Topics(phase: Json): seq<Json>
    requires HasTopicList(phase)
  {
    Get(phase, "topics").value.items
  }

  /** The start of the heading of phase number `index + 1`. */
  function Heading(index: nat): string {
    "PHASE " + NatToDecimal(index + 1) + ": "
  }

  function HeadingLine(index: nat, phase: Json): string {
    Heading(index) + (TemplateStr(Get(phase, "phaseTitle")) + "\n")
  }

  function DurationLine(phase: Json): string {
    "Duration: " + TemplateStr(Get(phase, "duration")) + "\n"
  }

  function OverviewLine(phase: Json): string {
    "Overview: " + TemplateStr(Get(phase, "description")) + "\n"
  }

  const TopicsLabel: string := "Topics:\n"

  /** The lines of a phase before its topics. */
  function PhaseLead(index: nat, phase: Json): string {
    HeadingLine(index, phase) + DurationLine(phase) + OverviewLine(phase) + TopicsLabel
  }

  /** The lines that close a phase. */
  const PhaseEnd: string := "\n" + Rule + "\n\n"

  /** The block of phase number `index + 1`. */
  function PhaseBlock(index: nat, phase: Json): string
    requires HasTopicList(phase)
  {
    PhaseLead(index, phase) + TopicLines(Topics(phase)) + PhaseEnd
  }

  predicate AllHaveTopicLists(phases: seq<Json>) {
    forall i :: 0 <= i < |phases| ==> HasTopicList(phases[i])
  }

  /** The blocks of the phases, in order. */
  function BlockList(phases: seq<Json>): (r: seq<string>)
    requires AllHaveTopicLists(phases)
    ensures |r| == |phases|
  {
    seq(|phases|, i requires 0 <= i < |phases| => PhaseBlock(i, phases[i]))
  }

  /** The exported text of a roadmap, or `None` when building it throws
      (the export then ends in the failure alert): when the title is a
      truthy value other than a string, or a phase has no topic list. */
  function ExportText(r: Roadmap): (text: Option<string>)
    ensures text.None? <==> (Truthy(r.title) && !r.title.JStr?) || exists i :: 0 <= i < |r.phases| && !HasTopicList(r.phases[i])
  {
    match TitleText(r.title, "Untitled")
    case None => None
    case Some(title) =>
      if !AllHaveTopicLists(r.phases) then None
      else Some(Header(r, title) + Concat(BlockList(r.phases)))
  }

  /** Characters the file name keeps: the ASCII letters and digits. */
  predicate IsAsciiAlphanumeric(c: char) {
    IsAsciiUpper(c) || IsAsciiLower(c) || IsAsciiDigit(c)
  }

  /** `replace(/[^a-z0-9]/gi, '_')`. */
  function Sanitize(s: string): (r: string)
    ensures |r| == |s|
    ensures forall i :: 0 <= i < |s| ==> r[i] == if IsAsciiAlphanumeric(s[i]) then s[i] else '_'
  {
    seq(|s|, i requires 0 <= i < |s| => if IsAsciiAlphanumeric(s[i]) then s[i] else '_')
  }

  /** The download's file name, or `None` when the title throws. */
  function ExportFileName(title: Json): Option<string> {
    match TitleText(title, "Roadmap")
    case None => None
    case Some(t) => Some(ToLower(Sanitize(t)) + ".txt")
  }

  /** The file name is the title, character for character, with every
      character other than an ASCII letter or digit made `_` and the
      letters made lower case, followed by ".txt". */
  lemma ExportFileNameShape(title: Json)
    requires ExportFileName(title).Some?
    ensures var t := TitleText(title, "Roadmap").value;
      var f := ExportFileName(title).value;
      |f| == |t| + 4 && f[|t|..] == ".txt" &&
      (forall i :: 0 <= i < |t| ==> IsAsciiLower(f[i]) || IsAsciiDigit(f[i]) || f[i] == '_') &&
      (forall i :: 0 <= i < |t| ==> IsAsciiAlphanumeric(t[i]) ==> f[i] == ToLowerChar(t[i]))
  {
  }

  /** A title already made of lower-case letters, digits and `_` is kept
      as it is. */
  lemma SafeTitleKept(t: string)
    requires t != ""
    requires forall i :: 0 <= i < |t| ==> IsAsciiLower(t[i]) || IsAsciiDigit(t[i]) || t[i] == '_'
    ensures ExportFileName(JStr(t)) == Some(t + ".txt")
  {
    assert ToLower(Sanitize(t)) == t;
  }

  /** The name is made whenever the text is. */
  lemma FileNameWithText(r: Roadmap)
    requires ExportText(r).Some?
    ensures ExportFileName(r.title).Some?
  {
  }

  /** The text opens with the title line, the title in capitals. */
  lemma ExportStartsWithTitle(r: Roadmap)
    requires ExportText(r).Some?
    ensures StartsWith(ExportText(r).value, TitleLine(TitleText(r.title, "Untitled").value))
  {
    var line := TitleLine(TitleText(r.title, "Untitled").value);
    HeaderAssoc(line, DifficultyLine(r), DescriptionLine(r), RuleLines, Concat(BlockList(r.phases)));
    OccursAtStart(line, DifficultyLine(r) + DescriptionLine(r) + RuleLines + Concat(BlockList(r.phases)));
  }

  /** An empty or missing title is exported as "UNTITLED". A roadmap built
      by `Coercers.RoadmapOf` always has a truthy title (its own default is
      "Untitled Roadmap", see `Coercers.RoadmapTitleNeverFalsy`), so in the
      application this fallback is never taken. */
  lemma UntitledExport(r: Roadmap)
    requires ExportText(r).Some? && !Truthy(r.title)
    ensures StartsWith(ExportText(r).value, "LEARNING ROADMAP: UNTITLED\n")
  {
    ExportStartsWithTitle(r);
    UntitledLine();
  }

  lemma UntitledLine()
    ensures TitleLine("Untitled") == "LEARNING ROADMAP: UNTITLED\n"
  {
    assert ToUpper("Untitled") == "UNTITLED";
  }

  lemma HeaderAssoc(s: string, a: string, b: string, c: string, d: string)
    ensures s + a + b + c + d == s + (a + b + c + d)
  {
  }

  /** In the exported text, the block of phase `i + 1` comes right after
      the header and the blocks of the phases before it, and the blocks of
      the later phases follow it, so the blocks appear in the order of the
      phases. */
  lemma ExportPhaseInOrder(r: Roadmap, i: nat)
    requires ExportText(r).Some? && i < |r.phases|
    ensures var blocks := BlockList(r.phases);
      ExportText(r).value == Header(r, TitleText(r.title, "Untitled").value) + Concat(blocks[..i]) + blocks[i] + Concat(blocks[i + 1..])
  {
    ExportTextShape(r);
    PiecesAround(Header(r, TitleText(r.title, "Untitled").value), BlockList(r.phases), i);
  }

  /** An exported text is the header followed by the blocks of the phases. */
  lemma ExportTextShape(r: Roadmap)
    requires ExportText(r).Some?
    ensures AllHaveTopicLists(r.phases)
    ensures ExportText(r).value == Header(r, TitleText(r.title, "Untitled").value) + Concat(BlockList(r.phases))
  {
  }

  /** Piece `i` of a text made of a header and pieces comes after the header
      and the pieces before it. */
  lemma PieceAfterHeader(header: string, pieces: seq<string>, i: nat)
    requires i < |pieces|
    ensures OccursAt(header + Concat(pieces), pieces[i], |header| + |Concat(pieces[..i])|)
  {
    ConcatPieceAt(pieces, i);
    OccursAtEnd(header, Concat(pieces));
    OccursWithin(header + Concat(pieces), Concat(pieces), |header|, pieces[i], |Concat(pieces[..i])|);
  }

  /** A text made of a header and pieces is the header, the pieces before
      piece `i`, piece `i` and the pieces after it. */
  lemma PiecesAround(header: string, pieces: seq<string>, i: nat)
    requires i < |pieces|
    ensures header + Concat(pieces) == header + Concat(pieces[..i]) + pieces[i] + Concat(pieces[i + 1..])
  {
    var before, after := Concat(pieces[..i]), Concat(pieces[i + 1..]);
    ConcatSplit(pieces, i + 1);
    ConcatStep(pieces, i);
    assert Concat(pieces) == before + pieces[i] + after;
    Assoc(header, before + pieces[i], after);
    Assoc(header, before, pieces[i]);
  }

  /** The block of phase `i + 1` starts with its heading "PHASE i+1: ". */
  lemma BlockStartsWithHeading(i: nat, phase: Json)
    requires HasTopicList(phase)
    ensures StartsWith(PhaseBlock(i, phase), Heading(i))
  {
    var rest := DurationLine(phase) + OverviewLine(phase) + TopicsLabel + TopicLines(Topics(phase)) + PhaseEnd;
    OccursAtStart(Heading(i), TemplateStr(Get(phase, "phaseTitle")) + "\n");
    HeaderAssoc(HeadingLine(i, phase), DurationLine(phase), OverviewLine(phase), TopicsLabel, TopicLines(Topics(phase)));
    Assoc(HeadingLine(i, phase), DurationLine(phase) + OverviewLine(phase) + TopicsLabel + TopicLines(Topics(phase)), PhaseEnd);
    OccursAtStart(HeadingLine(i, phase), rest);
    OccursWithin(PhaseBlock(i, phase), HeadingLine(i, phase), 0, Heading(i), 0);
  }

  /** Every topic of every phase is listed as a line "  - topic" of the
      exported text. */
  lemma ExportListsTopic(r: Roadmap, i: nat, j: nat)
    requires ExportText(r).Some? && i < |r.phases|
    requires HasTopicList(r.phases[i]) && j < |Topics(r.phases[i])|
    ensures Includes(ExportText(r).value, TopicLine(Topics(r.phases[i])[j]))
  {
    ExportTextShape(r);
    var phase := r.phases[i];
    var blocks := BlockList(r.phases);
    assert blocks[i] == PhaseBlock(i, phase);
    PieceOfPieceIncluded(ExportText(r).value, Header(r, TitleText(r.title, "Untitled").value), blocks, i,
      PhaseLead(i, phase), TopicLineList(Topics(phase)), PhaseEnd, j);
  }

  /** In a text made of a header and blocks, each made of a lead, pieces and
      an end, every piece of every block is included. */
  lemma PieceOfPieceIncluded(text: string, header: string, blocks: seq<string>, i: nat,
                             lead: string, pieces: seq<string>, end: string, j: nat)
    requires text == header + Concat(blocks) && i < |blocks|
    requires blocks[i] == lead + Concat(pieces) + end && j < |pieces|
    ensures Includes(text, pieces[j])
  {
    PieceAfterHeader(header, blocks, i);
    IncludedInBlock(text, blocks[i], |header| + |Concat(blocks[..i])|, lead, pieces, end, j);
  }

  /** A piece of a block that occurs in a text is included in the text. */
  lemma IncludedInBlock(text: string, block: string, at: int, lead: string, pieces: seq<string>, end: string, j: nat)
    requires j < |pieces| && block == lead + Concat(pieces) + end && OccursAt(text, block, at)
    ensures Includes(text, pieces[j])
  {
    PieceInside(lead, pieces, end, j);
    OccursWithin(text, lead + Concat(pieces) + end, at, pieces[j], |lead| + |Concat(pieces[..j])|);
    IncludesIff(text, pieces[j]);
  }

  /** Piece `j` of a text made of a lead, pieces and an end comes after the
      lead and the pieces before it. */
  lemma PieceInside(lead: string, pieces: seq<string>, end: string, j: nat)
    requires j < |pieces|
    ensures OccursAt(lead + Concat(pieces) + end, pieces[j], |lead| + |Concat(pieces[..j])|)
  {
    PieceAfterHeader(lead, pieces, j);
    OccursAtStart(lead + Concat(pieces), end);
    OccursWithin(lead + Concat(pieces) + end, lead + Concat(pieces), 0, pieces[j], |lead| + |Concat(pieces[..j])|);
  }

  /** The export's text, built as the source builds it: the header lines,
      then for each phase its heading lines and one line per topic. */
  method ExportContent(r: Roadmap) returns (content: Option<string>)
    ensures content == ExportText(r)
  {
    var title := TitleText(r.title, "Untitled");
    if title.None? {
      return None;
    }
    var text := TitleLine(title.value);
    text := text + DifficultyLine(r);
    text := text + DescriptionLine(r);
    text := text + RuleLines;
    ghost var header := text;
    var i := 0;
    while i < |r.phases|
      invariant 0 <= i <= |r.phases|
      invariant AllHaveTopicLists(r.phases[..i])
      invariant text == header + Concat(BlockList(r.phases[..i]))
    {
      var phase := r.phases[i];
      var topics := Get(phase, "topics");
      if !(topics.Some? && topics.value.JArr?) {
        assert !HasTopicList(r.phases[i]);
        return None;
      }
      text := AppendBlock(text, i, phase);
      BlockStep(r.phases, i);
      Assoc(header, Concat(BlockList(r.phases[..i])), PhaseBlock(i, phase));
      i := i + 1;
    }
    assert r.phases[..i] == r.phases;
    return Some(text);
  }

  /** One turn of the phase loop: the heading lines, the topics and the
      closing rule. */
  method AppendBlock(text: string, i: nat, phase: Json) returns (r: string)
    requires HasTopicList(phase)
    ensures r == text + PhaseBlock(i, phase)
  {
    r := text + HeadingLine(i, phase);
    r := r + DurationLine(phase);
    r := r + OverviewLine(phase);
    r := r + TopicsLabel;
    HeaderAssoc(text, HeadingLine(i, phase), DurationLine(phase), OverviewLine(phase), TopicsLabel);
    r := AppendTopics(r, Topics(phase));
    r := r + PhaseEnd;
    Assoc(text, PhaseLead(i, phase), TopicLines(Topics(phase)));
    Assoc(text, PhaseLead(i, phase) + TopicLines(Topics(phase)), PhaseEnd);
  }

  /** One step of the phase loop: the blocks of the first `i + 1` phases. */
  lemma BlockStep(phases: seq<Json>, i: nat)
    requires i < |phases| && AllHaveTopicLists(phases[..i]) && HasTopicList(phases[i])
    ensures AllHaveTopicLists(phases[..i + 1])
    ensures Concat(BlockList(phases[..i + 1])) == Concat(BlockList(phases[..i])) + PhaseBlock(i, phases[i])
  {
    var m := phases[..i + 1];
    assert m[..i] == phases[..i];
    assert BlockList(m)[..i] == BlockList(phases[..i]);
    ConcatStep(BlockList(m), i);
  }

  /** The inner `forEach`: one "  - topic" line per topic, in order. */
  method AppendTopics(text: string, topics: seq<Json>) returns (r: string)
    ensures r == text + TopicLines(topics)
  {
    r := text;
    var j := 0;
    while j < |topics|
      invariant 0 <= j <= |topics|
      invariant r == text + TopicLines(topics[..j])
    {
      TopicStep(topics, j);
      Assoc(text, TopicLines(topics[..j]), TopicLine(topics[j]));
      r := r + TopicLine(topics[j]);
      j := j + 1;
    }
    assert topics[..j] == topics;
  }

  lemma TopicStep(topics: seq<Json>, j: nat)
    requires j < |topics|
    ensures TopicLines(topics[..j + 1]) == TopicLines(topics[..j]) + TopicLine(topics[j])
  {
    var lines := TopicLineList(topics[..j + 1]);
    assert lines[..j] == TopicLineList(topics[..j]);
    ConcatStep(lines, j);
  }

  /** The screen's state. The selected file is represented by its type. */
  class Analyzer {
    var file: Option<string>
    var preview: Option<string>
    var fileData: Option<FileData>
    var studyGuide: Option<StudyGuide>
    var analyzerError: Option<string>
    var activeTab: StudyTab
    var roadmapTopic: string
    var roadmap: Option<Roadmap>
    var roadmapError: Option<string>
    /** The files downloaded so far: name and text. */
    var downloads: seq<(string, string)>
    /** The alerts shown so far. */
    var alerts: seq<string>

    /** Only a file of a supported type is ever selected or read. */
    ghost predicate Valid()
      reads this
    {
      (file.Some? ==> file.value in AllowedTypes) &&
      (fileData.Some? ==> fileData.value.mimeType in AllowedTypes)
    }

    constructor()
      ensures Valid()
      ensures file == None && preview == None && fileData == None && studyGuide == None && analyzerError == None
      ensures activeTab == Summary && roadmapTopic == "" && roadmap == None && roadmapError == None
      ensures downloads == [] && alerts == []
    {
      file := None;
      preview := None;
      fileData := None;
      studyGuide := None;
      analyzerError := None;
      activeTab := Summary;
      roadmapTopic := "";
      roadmap := None;
      roadmapError := None;
      downloads := [];
      alerts := [];
    }

    /** `handleFileChange` with the type of the chosen file, if any: the
        error and the study guide are cleared; a file of an unsupported
        type only sets the error, and a supported one becomes the file. */
    method FileChange(selected: Option<string>)
      requires Valid()
      modifies this
      ensures Valid()
      ensures studyGuide == None
      ensures selected.None? ==> file == old(file) && analyzerError == None
      ensures selected.Some? && selected.value !in AllowedTypes ==>
        file == old(file) && analyzerError == Some(UnsupportedTypeError(selected.value))
      ensures selected.Some? && selected.value in AllowedTypes ==> file == selected && analyzerError == None
      ensures preview == old(preview) && fileData == old(fileData) && activeTab == old(activeTab)
      ensures roadmapTopic == old(roadmapTopic) && roadmap == old(roadmap) && roadmapError == old(roadmapError)
      ensures downloads == old(downloads) && alerts == old(alerts)
    {
      analyzerError := None;
      studyGuide := None;
      if selected.Some? {
        if selected.value !in AllowedTypes {
          analyzerError := Some(UnsupportedTypeError(selected.value));
          return;
        }
        file := selected;
      }
    }

    /** The reader's `onload` for an accepted file of type `mimeType`: the
        data URL becomes the preview, and its payload the file data. */
    method FileLoaded(mimeType: string, result: string)
      requires Valid() && mimeType in AllowedTypes
      modifies this
      ensures Valid()
      ensures preview == Some(result) && fileData == Some(FileData(DataUrlPayload(result), mimeType))
      ensures file == old(file) && studyGuide == old(studyGuide) && analyzerError == old(analyzerError)
      ensures activeTab == old(activeTab) && roadmapTopic == old(roadmapTopic) && roadmap == old(roadmap)
      ensures roadmapError == old(roadmapError) && downloads == old(downloads) && alerts == old(alerts)
    {
      preview := Some(result);
      var base64 := DataUrlPayload(result);
      fileData := Some(FileData(base64, mimeType));
    }

    /** `clearFile`. */
    method ClearFile()
      requires Valid()
      modifies this
      ensures Valid()
      ensures file == None && preview == None && fileData == None && studyGuide == None && analyzerError == None
      ensures activeTab == old(activeTab) && roadmapTopic == old(roadmapTopic) && roadmap == old(roadmap)
      ensures roadmapError == old(roadmapError) && downloads == old(downloads) && alerts == old(alerts)
    {
      file := None;
      preview := None;
      fileData := None;
      studyGuide := None;
      analyzerError := None;
    }

    method ChooseTab(tab: StudyTab)
      requires Valid()
      modifies this
      ensures Valid()
      ensures activeTab == tab
      ensures file == old(file) && preview == old(preview) && fileData == old(fileData) && studyGuide == old(studyGuide)
      ensures analyzerError == old(analyzerError) && roadmapTopic == old(roadmapTopic) && roadmap == old(roadmap)
      ensures roadmapError == old(roadmapError) && downloads == old(downloads) && alerts == old(alerts)
    {
      activeTab := tab;
    }

    /** `handleGenerateStudyGuide` given the reply text: nothing without
        file data; otherwise the guide is shown on its summary tab, or the
        error is set. */
    method GenerateStudyGuide(reply: Option<string>, parse: string -> Option<Json>)
      requires Valid()
      modifies this
      ensures Valid()
      ensures old(fileData).None? ==> studyGuide == old(studyGuide) && analyzerError == old(analyzerError) && activeTab == old(activeTab)
      ensures old(fileData).Some? ==>
        var guide := StudyGuideOf(CleanAndParse(reply, parse));
        (guide.Some? ==> studyGuide == guide && activeTab == Summary && analyzerError == None) &&
        (guide.None? ==> studyGuide == old(studyGuide) && activeTab == old(activeTab) && analyzerError == Some(StudyGuideError))
      ensures file == old(file) && preview == old(preview) && fileData == old(fileData)
      ensures roadmapTopic == old(roadmapTopic) && roadmap == old(roadmap)
      ensures roadmapError == old(roadmapError) && downloads == old(downloads) && alerts == old(alerts)
    {
      if fileData.None? {
        return;
      }
      analyzerError := None;
      var result := StudyGuideOf(CleanAndParse(reply, parse));
      if result.Some? {
        studyGuide := result;
        activeTab := Summary;
      } else {
        analyzerError := Some(StudyGuideError);
      }
    }

    method ChooseRoadmapTopic(topic: string)
      requires Valid()
      modifies this
      ensures Valid()
      ensures roadmapTopic == topic
      ensures file == old(file) && preview == old(preview) && fileData == old(fileData) && studyGuide == old(studyGuide)
      ensures analyzerError == old(analyzerError) && activeTab == old(activeTab) && roadmap == old(roadmap)
      ensures roadmapError == old(roadmapError) && downloads == old(downloads) && alerts == old(alerts)
    {
      roadmapTopic := topic;
    }

    /** `handleRoadmapGenerate` given the reply text: nothing for an empty
        topic; otherwise the roadmap is replaced by the new one, or removed
        and the error set. */
    method GenerateRoadmap(reply: Option<string>, parse: string -> Option<Json>)
      requires Valid()
      modifies this
      ensures Valid()
      ensures old(roadmapTopic) == "" ==> roadmap == old(roadmap) && roadmapError == old(roadmapError)
      ensures old(roadmapTopic) != "" ==>
        var result := RoadmapOf(CleanAndParse(reply, parse));
        roadmap == result && (result.Some? ==> roadmapError == None) && (result.None? ==> roadmapError == Some(RoadmapError))
      ensures file == old(file) && preview == old(preview) && fileData == old(fileData) && studyGuide == old(studyGuide)
      ensures analyzerError == old(analyzerError) && activeTab == old(activeTab) && roadmapTopic == old(roadmapTopic)
      ensures downloads == old(downloads) && alerts == old(alerts)
    {
      if roadmapTopic == "" {
        return;
      }
      roadmapError := None;
      roadmap := None;
      var result := RoadmapOf(CleanAndParse(reply, parse));
      if result.Some? {
        roadmap := result;
      } else {
        roadmapError := Some(RoadmapError);
      }
    }

    /** The roadmap's close button. */
    method CloseRoadmap()
      requires Valid()
      modifies this
      ensures Valid()
      ensures roadmap == None && roadmapTopic == ""
      ensures file == old(file) && preview == old(preview) && fileData == old(fileData) && studyGuide == old(studyGuide)
      ensures analyzerError == old(analyzerError) && activeTab == old(activeTab) && roadmapError == old(roadmapError)
      ensures downloads == old(downloads) && alerts == old(alerts)
    {
      roadmap := None;
      roadmapTopic := "";
    }

    /** `downloadRoadmap`: nothing without a roadmap; otherwise one
        download of the exported text under its file name, or, when
        building the text throws, the failure alert. */
    method DownloadRoadmap()
      requires Valid()
      modifies this
      ensures Valid()
      ensures old(roadmap).None? ==> downloads == old(downloads) && alerts == old(alerts)
      ensures old(roadmap).Some? && ExportText(old(roadmap).value).Some? ==>
        downloads == old(downloads) + [(ExportFileName(old(roadmap).value.title).value, ExportText(old(roadmap).value).value)] &&
        alerts == old(alerts)
      ensures old(roadmap).Some? && ExportText(old(roadmap).value).None? ==>
        downloads == old(downloads) && alerts == old(alerts) + [ExportAlert]
      ensures file == old(file) && preview == old(preview) && fileData == old(fileData) && studyGuide == old(studyGuide)
      ensures analyzerError == old(analyzerError) && activeTab == old(activeTab) && roadmapTopic == old(roadmapTopic)
      ensures roadmap == old(roadmap) && roadmapError == old(roadmapError)
    {
      if roadmap.None? {
        return;
      }
      var content := ExportContent(roadmap.value);
      if content.None? {
        alerts := alerts + [ExportAlert];
        return;
      }
      FileNameWithText(roadmap.value);
      var name := ExportFileName(roadmap.value.title).value;
      downloads := downloads + [(name, content.value)];
    }
  }
}
