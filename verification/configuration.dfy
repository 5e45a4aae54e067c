/** `load_config`: the settings file's keys laid over the built-in defaults.
    File access and JSON decoding are not modelled; their three outcomes are the
    cases of `ConfigFile`. */
module Configuration {

  /** The configuration dictionary. Only string values are modelled. */
  type Config = map<string, string>

  const ApiKeyName := "api_key"
  const ThemeName := "theme"
  const AccentName := "accent_color"
  const DefaultAccent := "#3498db"

  /** `DEFAULT_CONFIG`. */
  const Defaults: Config := map[ApiKeyName := "", ThemeName := "light", AccentName := DefaultAccent]

  /** What reading `chat_config.json` can produce. */
  datatype ConfigFile =
    | Absent                           // the file does not exist
    | Undecodable                      // `json.load` raised `JSONDecodeError`
    | Decoded(entries: map<string, string>)

  /** The accent colour the merge produces before validation. */
  function MergedAccent(entries: map<string, string>): (accent: string)
  {
    if AccentName in entries then entries[AccentName] else DefaultAccent
  }

  /** `load_config()`. `colorRaises` stands for "constructing a `QColor` from this
      text raises", which the model leaves uninterpreted. */
  function Load(file: ConfigFile, colorRaises: string -> bool): (c: Config)
    ensures !file.Decoded? ==> c == Defaults
    ensures file.Decoded? ==> c.Keys == Defaults.Keys + file.entries.Keys
    ensures file.Decoded? ==>
      forall k :: k in file.entries && k != AccentName ==> c[k] == file.entries[k]
    ensures file.Decoded? ==>
      forall k :: k in Defaults && k !in file.entries ==> c[k] == Defaults[k]
    ensures file.Decoded? ==>
      c[AccentName] == (if colorRaises(MergedAccent(file.entries)) then DefaultAccent
                        else MergedAccent(file.entries))
  {
    match file
    case Absent => Defaults
    case Undecodable => Defaults
    case Decoded(entries) =>
      var merged := Defaults + entries;
      if colorRaises(merged[AccentName]) then merged[AccentName := Defaults[AccentName]]
      else merged
  }

  /** Every default key survives loading, whatever the file holds. */
  lemma LoadKeepsDefaultKeys(file: ConfigFile, colorRaises: string -> bool)
    ensures Defaults.Keys <= Load(file, colorRaises).Keys
  {
  }

  /** A file that sets every default key and a usable colour is taken verbatim. */
  lemma CompleteFileTakenVerbatim(entries: map<string, string>, colorRaises: string -> bool)
    requires Defaults.Keys <= entries.Keys
    requires !colorRaises(entries[AccentName])
    ensures Load(Decoded(entries), colorRaises) == entries
  {
    var c := Load(Decoded(entries), colorRaises);
    assert c.Keys == entries.Keys;
    forall k | k in c
      ensures c[k] == entries[k]
    {
    }
  }

  /** `config.get("api_key")`; a missing key reads as the empty (falsy) key. */
  function ApiKey(c: Config): (key: string)
    ensures ApiKeyName in c ==> key == c[ApiKeyName]
    ensures ApiKeyName !in c ==> key == ""
  {
    if ApiKeyName in c then c[ApiKeyName] else ""
  }

  /** The key after loading is the file's key when it has one, else empty. */
  lemma LoadedApiKey(file: ConfigFile, colorRaises: string -> bool)
    ensures ApiKey(Load(file, colorRaises)) ==
      (if file.Decoded? && ApiKeyName in file.entries then file.entries[ApiKeyName] else "")
  {
  }
}
