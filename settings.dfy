/**
  The plugin's settings: the defaults, the merge `loadSettings` performs with the
  persisted data, the setting tab's single-field updates, and the typed view the
  command reads through JavaScript's truthiness and string conversion.
 */
module Settings {
  import opened Text

  /** A JSON value the settings object holds: the defaults have strings and booleans. */
  datatype SettingValue = Str(s: string) | Flag(b: bool)

  /** JavaScript truthiness of a setting (`if (this.settings.x)`, `if (!apiKey)`). */
  predicate Truthy(v: SettingValue) {
    match v
    case Str(s) => s != ""
    case Flag(b) => b
  }

  /** `String(v)`: the text a setting becomes as a property key or in a template. */
  function AsText(v: SettingValue): string {
    match v
    case Str(s) => s
    case Flag(b) => if b then "true" else "false"
  }

  const API_KEY := "youtubeApiKey"
  const DATE_FORMAT := "dateFormat"
  const AUTHOR_PROPERTY := "authorPropertyName"
  const DATE_PROPERTY := "datePropertyName"
  const DESCRIPTION_PROPERTY := "descriptionPropertyName"
  const DURATION_PROPERTY := "durationPropertyName"
  const RENAME_NOTE := "enableRenameNote"
  const UPDATE_AUTHOR := "enableUpdateAuthor"
  const UPDATE_DATE := "enableUpdateDate"
  const UPDATE_DESCRIPTION := "enableUpdateDescription"
  const UPDATE_DURATION := "enableUpdateDuration"
  const ADD_DESCRIPTION := "enableAddDescriptionToNoteContent"

  /** `DEFAULT_SETTINGS` */
  const DEFAULT_SETTINGS: map<string, SettingValue> := map[
    API_KEY := Str(""),
    DATE_FORMAT := Str("YYYY-MM-DD"),
    AUTHOR_PROPERTY := Str("Author"),
    DATE_PROPERTY := Str("Date"),
    DESCRIPTION_PROPERTY := Str("description"),
    DURATION_PROPERTY := Str("duration"),
    RENAME_NOTE := Flag(true),
    UPDATE_AUTHOR := Flag(true),
    UPDATE_DATE := Flag(true),
    UPDATE_DESCRIPTION := Flag(false),
    UPDATE_DURATION := Flag(false),
    ADD_DESCRIPTION := Flag(false)
  ]

  /** Every default key is present. */
  predicate HasAllKeys(settings: map<string, SettingValue>) {
    DEFAULT_SETTINGS.Keys <= settings.Keys
  }

  /** `Object.assign({}, DEFAULT_SETTINGS, persisted)`: `persisted` is what `loadData`
      returned, `None` for `null` (which `Object.assign` skips). */
  function Merge(persisted: Option<map<string, SettingValue>>): (r: map<string, SettingValue>)
    ensures HasAllKeys(r)
    ensures persisted.None? ==> r == DEFAULT_SETTINGS
    ensures persisted.Some? ==> r.Keys == DEFAULT_SETTINGS.Keys + persisted.value.Keys
    ensures forall k :: k in r ==>
              r[k] == if persisted.Some? && k in persisted.value then persisted.value[k]
                      else DEFAULT_SETTINGS[k]
  {
    match persisted
    case None => DEFAULT_SETTINGS
    case Some(p) => DEFAULT_SETTINGS + p
  }

  /** Loading what was saved gives it back once it holds every key (`saveSettings`
      followed by `loadSettings`). */
  lemma MergeOfSaved(saved: map<string, SettingValue>)
    requires HasAllKeys(saved)
    ensures Merge(Some(saved)) == saved
  {
  }

  /** The settings as the command reads them. */
  datatype Config = Config(
    apiKey: SettingValue,
    dateFormat: string,
    authorProperty: string,
    dateProperty: string,
    descriptionProperty: string,
    durationProperty: string,
    renameNote: bool,
    updateAuthor: bool,
    updateDate: bool,
    updateDescription: bool,
    updateDuration: bool,
    addDescription: bool)

  function ConfigOf(settings: map<string, SettingValue>): Config
    requires HasAllKeys(settings)
  {
    Config(
      settings[API_KEY],
      AsText(settings[DATE_FORMAT]),
      AsText(settings[AUTHOR_PROPERTY]),
      AsText(settings[DATE_PROPERTY]),
      AsText(settings[DESCRIPTION_PROPERTY]),
      AsText(settings[DURATION_PROPERTY]),
      Truthy(settings[RENAME_NOTE]),
      Truthy(settings[UPDATE_AUTHOR]),
      Truthy(settings[UPDATE_DATE]),
      Truthy(settings[UPDATE_DESCRIPTION]),
      Truthy(settings[UPDATE_DURATION]),
      Truthy(settings[ADD_DESCRIPTION]))
  }

  /** With nothing persisted, the command renames the note and writes author and date
      under `Author` and `Date`, in `YYYY-MM-DD`, and has no API key. */
  lemma DefaultConfig()
    ensures ConfigOf(Merge(None))
            == Config(Str(""), "YYYY-MM-DD", "Author", "Date", "description", "duration",
                      true, true, true, false, false, false)
    ensures !Truthy(ConfigOf(Merge(None)).apiKey)
  {
  }

  /** The plugin object, whose `settings` field `loadSettings` reassigns and the
      setting tab updates one key at a time. */
  class Plugin {
    var settings: map<string, SettingValue>

    predicate Valid()
      reads this
    {
      HasAllKeys(settings)
    }

    /** The plugin before `onload`: no settings yet. `Valid()` holds once `LoadSettings`
        has run, as `onload` calls `loadSettings` first. */
    constructor ()
      ensures settings == map[]
    {
      settings := map[];
    }

    /** `loadSettings` */
    method LoadSettings(persisted: Option<map<string, SettingValue>>)
      modifies this
      ensures settings == Merge(persisted)
      ensures Valid()
    {
      settings := DEFAULT_SETTINGS;
      if persisted.Some? {
        settings := settings + persisted.value;
      }
    }

    /** A setting tab `onChange`: one key takes the new value, the others keep theirs. */
    method SetSetting(key: string, value: SettingValue)
      modifies this
      ensures settings == old(settings)[key := value]
      ensures old(Valid()) ==> Valid()
    {
      settings := settings[key := value];
    }

    /** What the command reads. */
    function CurrentConfig(): Config
      reads this
      requires Valid()
    {
      ConfigOf(settings)
    }
  }
}
