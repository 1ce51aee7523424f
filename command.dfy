/**
  The `Fetch YouTube Video Info` command: checks that end it early, one request to the
  video API, and three independent best-effort changes to the active note (rename,
  frontmatter, content). The network and the host's file operations are parameters:
  what the request returned and whether each host operation succeeded.
 */
module Command {
  import opened Text
  import opened Settings
  import opened Frontmatter
  import VideoId
  import Filename
  import Description

  /** The frontmatter property holding the video link. */
  const LINK_PROPERTY := "链接"

  /** What the request came back with: a failure (network error, a status that is not
      OK, a body that is not JSON) or the `items` of the response, absent read as empty. */
  datatype FetchResult = Failed | Items(items: seq<VideoItem>)

  /** Whether `renameFile`, `processFrontMatter` and the editor update succeed. */
  datatype HostOutcomes = HostOutcomes(renameOk: bool, frontmatterOk: bool, editOk: bool)

  /** How the command ended: one value per early return before the request, one per
      failure of the request, and `Processed` once the first item is read, whatever the
      three steps then did. */
  datatype Status =
    | NoActiveFile | NoFrontmatter | NoLink | InvalidLink | NoApiKey
    | FetchFailed | NoVideoData | Processed

  /** The parameters of the one request: the `id` and `key` of the API URL. */
  datatype Request = Request(videoId: string, apiKey: string)

  /** A snapshot of the active note. */
  datatype NoteState = NoteState(path: string, frontmatter: Option<map<string, string>>, content: string)

  /** The checks before the request: the first that fails ends the command. */
  datatype Precheck = Abort(status: Status) | Ready(request: Request)

  /** `if (!youtubeLink)`: an absent or empty link. */
  function LinkOf(fm: map<string, string>): Option<string> {
    if LINK_PROPERTY in fm && fm[LINK_PROPERTY] != "" then Some(fm[LINK_PROPERTY]) else None
  }

  function Check(cfg: Config, note: Option<NoteState>): Precheck {
    if note.None? then Abort(NoActiveFile)
    else if note.value.frontmatter.None? then Abort(NoFrontmatter)
    else
      match LinkOf(note.value.frontmatter.value)
      case None => Abort(NoLink)
      case Some(link) =>
        match VideoId.ExtractVideoId(link)
        case None => Abort(InvalidLink)
        case Some(id) =>
          if !Truthy(cfg.apiKey) then Abort(NoApiKey) else Ready(Request(id, AsText(cfg.apiKey)))
  }

  /** The checks fail exactly when one of the five conditions holds. */
  lemma CheckAbortIff(cfg: Config, note: Option<NoteState>)
    ensures Check(cfg, note).Abort? <==>
              || note.None?
              || note.value.frontmatter.None?
              || LinkOf(note.value.frontmatter.value).None?
              || VideoId.ExtractVideoId(LinkOf(note.value.frontmatter.value).value).None?
              || !Truthy(cfg.apiKey)
    ensures Check(cfg, note).Ready? ==>
              Check(cfg, note).request
              == Request(VideoId.ExtractVideoId(LinkOf(note.value.frontmatter.value).value).value,
                         AsText(cfg.apiKey))
  {
  }

  /** `sanitizedTitle + '.md'` */
  function NewFilename(title: string): string {
    Filename.Sanitize(title) + ".md"
  }

  predicate AnyFrontmatterUpdate(cfg: Config) {
    cfg.updateAuthor || cfg.updateDate || cfg.updateDescription || cfg.updateDuration
  }

  function RenameStep(cfg: Config, item: VideoItem, ok: bool, st: NoteState): NoteState {
    if cfg.renameNote && ok then st.(path := NewFilename(item.title)) else st
  }

  function FrontmatterStep(cfg: Config, item: VideoItem, ok: bool, st: NoteState): NoteState {
    if AnyFrontmatterUpdate(cfg) && ok && st.frontmatter.Some? then
      st.(frontmatter := Some(ApplyWrites(st.frontmatter.value, PlannedWrites(cfg, item))))
    else st
  }

  function ContentStep(cfg: Config, item: VideoItem, ok: bool, st: NoteState): NoteState {
    if cfg.addDescription && ok then
      st.(content := Description.InsertedContent(st.content, item.description))
    else st
  }

  /** The three steps on the first item, one after the other. */
  function Steps(cfg: Config, item: VideoItem, host: HostOutcomes, st: NoteState): NoteState {
    ContentStep(cfg, item, host.editOk,
      FrontmatterStep(cfg, item, host.frontmatterOk,
        RenameStep(cfg, item, host.renameOk, st)))
  }

  /** The whole command: its status, the request it made, and the note afterwards. */
  function Run(cfg: Config, note: Option<NoteState>, fetch: FetchResult, host: HostOutcomes)
    : (Status, Option<Request>, Option<NoteState>)
  {
    match Check(cfg, note)
    case Abort(status) => (status, None, note)
    case Ready(request) =>
      match fetch
      case Failed => (FetchFailed, Some(request), note)
      case Items(items) =>
        if |items| == 0 then (NoVideoData, Some(request), note)
        else (Processed, Some(request), Some(Steps(cfg, items[0], host, note.value)))
  }

  /** A failed check ends the command before any request and changes nothing; a request
      is made exactly when the checks pass. */
  lemma AbortBeforeRequest(cfg: Config, note: Option<NoteState>, fetch: FetchResult, host: HostOutcomes)
    ensures Run(cfg, note, fetch, host).1.None? <==> Check(cfg, note).Abort?
    ensures Check(cfg, note).Abort? ==>
              Run(cfg, note, fetch, host) == (Check(cfg, note).status, None, note)
  {
  }

  /** A failed request, or a response without items, changes nothing. */
  lemma NoDataNoChange(cfg: Config, note: Option<NoteState>, fetch: FetchResult, host: HostOutcomes)
    requires fetch.Failed? || fetch.items == []
    ensures Run(cfg, note, fetch, host).2 == note
    ensures Check(cfg, note).Ready? ==>
              Run(cfg, note, fetch, host).0 == if fetch.Failed? then FetchFailed else NoVideoData
  {
  }

  /** Only the first item is read. */
  lemma FirstItemOnly(cfg: Config, note: Option<NoteState>, a: seq<VideoItem>, b: seq<VideoItem>,
                      host: HostOutcomes)
    requires |a| > 0 && |b| > 0 && a[0] == b[0]
    ensures Run(cfg, note, Items(a), host) == Run(cfg, note, Items(b), host)
  {
  }

  /** Each part of the note after the steps, in terms of its own step only. */
  lemma StepsFields(cfg: Config, item: VideoItem, host: HostOutcomes, st: NoteState)
    ensures Steps(cfg, item, host, st).path
            == if cfg.renameNote && host.renameOk then NewFilename(item.title) else st.path
    ensures Steps(cfg, item, host, st).frontmatter
            == if AnyFrontmatterUpdate(cfg) && host.frontmatterOk && st.frontmatter.Some?
               then Some(ApplyWrites(st.frontmatter.value, PlannedWrites(cfg, item)))
               else st.frontmatter
    ensures Steps(cfg, item, host, st).content
            == if cfg.addDescription && host.editOk
               then Description.InsertedContent(st.content, item.description)
               else st.content
  {
  }

  /** The steps are independent: each part of the note depends on its own step's outcome
      only, so a failed step neither stops nor changes the others. */
  lemma StepsIndependent(cfg: Config, item: VideoItem, h1: HostOutcomes, h2: HostOutcomes,
                         st: NoteState)
    ensures h1.renameOk == h2.renameOk ==> Steps(cfg, item, h1, st).path == Steps(cfg, item, h2, st).path
    ensures h1.frontmatterOk == h2.frontmatterOk ==>
              Steps(cfg, item, h1, st).frontmatter == Steps(cfg, item, h2, st).frontmatter
    ensures h1.editOk == h2.editOk ==> Steps(cfg, item, h1, st).content == Steps(cfg, item, h2, st).content
  {
    StepsFields(cfg, item, h1, st);
    StepsFields(cfg, item, h2, st);
  }

  /** The active note. */
  class Note {
    var path: string
    var frontmatter: Option<map<string, string>>
    var content: string

    constructor (path: string, frontmatter: Option<map<string, string>>, content: string)
      ensures State() == NoteState(path, frontmatter, content)
    {
      this.path := path;
      this.frontmatter := frontmatter;
      this.content := content;
    }

    function State(): NoteState
      reads this
    {
      NoteState(path, frontmatter, content)
    }
  }

  /** `app.workspace.getActiveFile()` with its snapshot, `None` for `null`. */
  function StateOf(note: Note?): Option<NoteState>
    reads note
  {
    if note == null then None else Some(note.State())
  }

  /** The `editorCallback`: the same decisions as `Run`, changing the note in place. */
  method FetchVideoInfo(plugin: Plugin, note: Note?, fetch: FetchResult, host: HostOutcomes)
    returns (status: Status, request: Option<Request>)
    requires plugin.Valid()
    modifies note
    ensures var r := Run(plugin.CurrentConfig(), old(StateOf(note)), fetch, host);
            && status == r.0 && request == r.1 && StateOf(note) == r.2
  {
    var cfg := plugin.CurrentConfig();
    request := None;
    if note == null {
      return NoActiveFile, None;
    }
    if note.frontmatter.None? {
      return NoFrontmatter, None;
    }
    var youtubeLink := LinkOf(note.frontmatter.value);
    if youtubeLink.None? {
      return NoLink, None;
    }
    var videoId := VideoId.ExtractVideoId(youtubeLink.value);
    if videoId.None? {
      return InvalidLink, None;
    }
    if !Truthy(cfg.apiKey) {
      return NoApiKey, None;
    }
    request := Some(Request(videoId.value, AsText(cfg.apiKey)));
    assert Check(cfg, StateOf(note)) == Ready(request.value);
    if fetch.Failed? {
      return FetchFailed, request;
    }
    if |fetch.items| == 0 {
      return NoVideoData, request;
    }
    ApplySteps(note, cfg, fetch.items[0], host);
    status := Processed;
  }

  /** The three steps on the note, each guarded by its setting and done only when the
      host operation succeeds. */
  method ApplySteps(note: Note, cfg: Config, item: VideoItem, host: HostOutcomes)
    modifies note
    ensures note.State() == Steps(cfg, item, host, old(note.State()))
  {
    ghost var st0 := note.State();
    if cfg.renameNote && host.renameOk {
      note.path := NewFilename(item.title);
    }
    ghost var st1 := note.State();
    assert st1 == RenameStep(cfg, item, host.renameOk, st0);

    if AnyFrontmatterUpdate(cfg) && host.frontmatterOk && note.frontmatter.Some? {
      var fm := new FrontMatter(note.frontmatter.value);
      fm.Update(cfg, item);
      note.frontmatter := Some(fm.fields);
    }
    ghost var st2 := note.State();
    assert st2 == FrontmatterStep(cfg, item, host.frontmatterOk, st1);

    if cfg.addDescription && host.editOk {
      var newContent := Description.InsertDescription(note.content, item.description);
      note.content := newContent;
    }
  }

  /** The scenario of a `watch?v=` link and the title `Intro: Setup`: the request asks for
      `dQw4w9W` and, with renaming on and succeeding, the note becomes `Intro- Setup.md`. */
  lemma ExampleScenario(cfg: Config, st: NoteState, item: VideoItem, host: HostOutcomes)
    requires st.frontmatter.Some?
    requires LINK_PROPERTY in st.frontmatter.value
    requires st.frontmatter.value[LINK_PROPERTY] == "youtube.com/watch?v=dQw4w9W&t=1"
    requires Truthy(cfg.apiKey) && cfg.renameNote && host.renameOk
    requires item.title == "Intro: Setup"
    ensures var r := Run(cfg, Some(st), Items([item]), host);
            && r.0 == Processed
            && r.1 == Some(Request("dQw4w9W", AsText(cfg.apiKey)))
            && r.2.value.path == "Intro- Setup.md"
  {
    assert "Intro- Setup" + ".md" == "Intro- Setup.md";
    Filename.ExampleColon();
    assert NewFilename(item.title) == "Intro- Setup.md";
    VideoId.ExampleWatch();
    assert LinkOf(st.frontmatter.value) == Some("youtube.com/watch?v=dQw4w9W&t=1");
    assert Check(cfg, Some(st)) == Ready(Request("dQw4w9W", AsText(cfg.apiKey)));
    StepsFields(cfg, item, host, st);
  }
}
