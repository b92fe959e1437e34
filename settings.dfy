// The application settings of the newest edition (include/TskSettings.hpp,
// src/TskSettings.cpp): a JSON cache file of named values, a table of
// standard values for the settings the cache does not hold, and the list
// of recently opened files kept under "recent_files".
//
// The cache file is a map from key to JSON value; reading and writing
// the file on disk is not modelled. Paths are strings compared as text.

module Settings {
  import opened Wrappers
  import opened JsonValue

  /** `TskSetting`. */
  datatype TskSetting =
    | NoSetting
    | MaxNumberOfRecentFiles
    | MaxNumberOfUndos
    | DefaultTskNewFileFilename
    | DefaultNewCanvasColor
    | DocumentMajorGridLineColor
    | DocumentMajorGridLineWidth
    | DocumentMinorGridLineColor
    | DocumentMinorGridLineWidth
    | DocumentMinGridLineSpacingPx

  /** `magic_enum::enum_name`: the key a setting is cached under. */
  function SettingName(s: TskSetting): string
  {
    match s
    case NoSetting => "NONE"
    case MaxNumberOfRecentFiles => "MAX_NUMBER_OF_RECENT_FILES"
    case MaxNumberOfUndos => "MAX_NUMBER_OF_UNDOS"
    case DefaultTskNewFileFilename => "DEFAULT_TSK_NEW_FILE_FILENAME"
    case DefaultNewCanvasColor => "DEFAULT_NEW_CANVAS_COLOR"
    case DocumentMajorGridLineColor => "DOCUMENT_MAJOR_GRID_LINE_COLOR"
    case DocumentMajorGridLineWidth => "DOCUMENT_MAJOR_GRID_LINE_WIDTH"
    case DocumentMinorGridLineColor => "DOCUMENT_MINOR_GRID_LINE_COLOR"
    case DocumentMinorGridLineWidth => "DOCUMENT_MINOR_GRID_LINE_WIDTH"
    case DocumentMinGridLineSpacingPx => "DOCUMENT_MIN_GRID_LINE_SPACING_PX"
  }

  /** The key of the recent-files list. */
  const RecentKey: string := "recent_files"

  /**
   * Recovers a setting from its key by the key's length and two of its
   * letters; a left inverse of SettingName.
   */
  function SettingFromName(name: string): TskSetting
  {
    if |name| == 26 then MaxNumberOfRecentFiles
    else if |name| == 19 then MaxNumberOfUndos
    else if |name| == 29 then DefaultTskNewFileFilename
    else if |name| == 24 then DefaultNewCanvasColor
    else if |name| == 33 then DocumentMinGridLineSpacingPx
    else if |name| == 30 then
      if name[10] == 'A' then
        if name[25] == 'C' then DocumentMajorGridLineColor else DocumentMajorGridLineWidth
      else
        if name[25] == 'C' then DocumentMinorGridLineColor else DocumentMinorGridLineWidth
    else NoSetting
  }

  lemma {:induction false} SettingFromNameInverts(a: TskSetting)
    ensures SettingFromName(SettingName(a)) == a
    ensures |SettingName(a)| != |RecentKey|
  {
    match a
    case NoSetting =>
    case MaxNumberOfRecentFiles =>
    case MaxNumberOfUndos =>
    case DefaultTskNewFileFilename =>
    case DefaultNewCanvasColor =>
    case DocumentMajorGridLineColor =>
      assert SettingName(a)[10] == 'A' && SettingName(a)[25] == 'C';
    case DocumentMajorGridLineWidth =>
      assert SettingName(a)[10] == 'A' && SettingName(a)[25] == 'W';
    case DocumentMinorGridLineColor =>
      assert SettingName(a)[10] == 'I' && SettingName(a)[25] == 'C';
    case DocumentMinorGridLineWidth =>
      assert SettingName(a)[10] == 'I' && SettingName(a)[25] == 'W';
    case DocumentMinGridLineSpacingPx =>
  }

  /** Different settings are cached under different keys, none of them the recent-files key. */
  lemma SettingNamesDistinct(a: TskSetting, b: TskSetting)
    ensures SettingName(a) == SettingName(b) <==> a == b
    ensures SettingName(a) != RecentKey
  {
    SettingFromNameInverts(a);
    SettingFromNameInverts(b);
  }

  /** An RGBA colour as the library writes the brace list `{ r, g, b, a }`. */
  function Rgba(r: nat, g: nat, b: nat, a: nat): Json
  {
    Arr([Num(r), Num(g), Num(b), Num(a)])
  }

  /**
   * `GetStandardSetting`: the value of a setting the cache does not hold.
   * Every setting but `NONE` has one; counts and widths are positive,
   * colours are opaque RGBA quadruples of bytes, and the file name is the
   * only text.
   */
  function StandardSetting(s: TskSetting): (r: Json)
    ensures r.Null? <==> s == NoSetting
    ensures r.Num? ==> r.n >= 1
    ensures r.Arr? ==> (|r.items| == 4 && r.items[3] == Num(255) &&
      forall i :: 0 <= i < 4 ==> r.items[i].Num? && 0 <= r.items[i].n <= 255)
    ensures r.Str? <==> s == DefaultTskNewFileFilename
  {
    match s
    case MaxNumberOfRecentFiles => Num(10)
    case MaxNumberOfUndos => Num(100)
    case DefaultTskNewFileFilename => Str("Untitled")
    case DefaultNewCanvasColor => Rgba(227, 217, 186, 255)
    case DocumentMajorGridLineColor => Rgba(255, 0, 0, 255)
    case DocumentMajorGridLineWidth => Num(1)
    case DocumentMinorGridLineColor => Rgba(0, 0, 255, 255)
    case DocumentMinorGridLineWidth => Num(1)
    case DocumentMinGridLineSpacingPx => Num(10)
    case NoSetting => Null
  }

  /** The standard values of the count and name settings. */
  lemma StandardDefaults()
    ensures StandardSetting(MaxNumberOfRecentFiles) == Num(10)
    ensures StandardSetting(MaxNumberOfUndos) == Num(100)
    ensures StandardSetting(DefaultTskNewFileFilename) == Str("Untitled")
    ensures StandardSetting(NoSetting) == Null
  {
  }

  /** A vector of paths as the JSON array of their strings. */
  function RecentJson(files: seq<string>): (r: Json)
    ensures r.Arr? && |r.items| == |files|
    ensures forall i :: 0 <= i < |files| ==> r.items[i] == Str(files[i])
  {
    Arr(seq(|files|, i requires 0 <= i < |files| => Str(files[i])))
  }

  /** Conversion of JSON items to a vector of strings: only when every item is a string. */
  function StringsOf(items: seq<Json>): (r: Option<seq<string>>)
    ensures r.Some? <==> forall i :: 0 <= i < |items| ==> items[i].Str?
    ensures r.Some? ==> |r.value| == |items| && forall i :: 0 <= i < |items| ==> items[i] == Str(r.value[i])
  {
    if items == [] then Some([])
    else
      var init := items[..|items| - 1];
      var last := items[|items| - 1];
      assert forall i :: 0 <= i < |init| ==> init[i] == items[i];
      var prev := StringsOf(init);
      if prev.Some? && last.Str? then Some(prev.value + [last.s]) else None
  }

  /** The stored list reads back as the list that was stored. */
  lemma RecentJsonRoundTrip(files: seq<string>)
    ensures StringsOf(RecentJson(files).items) == Some(files)
  {
    var r := StringsOf(RecentJson(files).items);
    assert r.Some?;
    assert r.value == files;
  }

  /** `files.erase(std::remove(..., path), ...)`: every occurrence of the path gone, the rest in order. */
  function Without(files: seq<string>, path: string): (r: seq<string>)
    ensures path !in r && |r| <= |files|
    ensures forall x :: x in r ==> x in files
    ensures forall x :: x in files && x != path ==> x in r
    ensures path !in files ==> r == files
  {
    if files == [] then []
    else
      var init := files[..|files| - 1];
      var last := files[|files| - 1];
      assert files == init + [last];
      Without(init, path) + (if last == path then [] else [last])
  }

  /** What the loop erasing the first entry leaves: the last `n` entries, or all of them. */
  function KeepLast(s: seq<string>, n: nat): (r: seq<string>)
    ensures |r| == if |s| <= n then |s| else n
    ensures r == s[|s| - |r|..]
  {
    if |s| <= n then s else s[|s| - n..]
  }

  /**
   * `AddRecentFile` as written: the count is trimmed to the maximum
   * before the path is appended.
   */
  function RecentAfterAddAsWritten(files: seq<string>, path: string, max: nat): seq<string>
  {
    KeepLast(Without(files, path), max) + [path]
  }

  /** As written, a full list grows to one entry more than the maximum. */
  lemma RecentAsWrittenOverflows(files: seq<string>, path: string, max: nat)
    requires |Without(files, path)| >= max
    ensures |RecentAfterAddAsWritten(files, path, max)| == max + 1
  {
  }

  /** A concrete case: with the standard maximum of 10 and ten other files, the list holds 11. */
  lemma RecentAsWrittenElevenFiles()
    ensures |RecentAfterAddAsWritten(["0", "1", "2", "3", "4", "5", "6", "7", "8", "9"], "new", 10)| == 11
  {
    var files := ["0", "1", "2", "3", "4", "5", "6", "7", "8", "9"];
    assert "new" !in files;
    RecentAsWrittenOverflows(files, "new", 10);
  }

  /**
   * `AddRecentFile` corrected: room is made for the path before it is
   * appended, so the list never holds more than the maximum (or the path
   * alone when the maximum is 0).
   */
  function RecentAfterAdd(files: seq<string>, path: string, max: nat): seq<string>
  {
    KeepLast(Without(files, path), if max >= 1 then max - 1 else 0) + [path]
  }

  /**
   * The path ends up exactly once, at the end; everything else was listed
   * before and keeps its order; nothing is dropped while there is room;
   * and the maximum holds.
   */
  lemma SuffixElements(s: seq<string>, k: nat)
    requires k <= |s|
    ensures forall x :: x in s[k..] ==> x in s
  {
    forall x | x in s[k..]
      ensures x in s
    {
      var j :| 0 <= j < |s| - k && s[k..][j] == x;
      assert s[k + j] == x;
    }
  }

  lemma RecentAfterAddIsBounded(files: seq<string>, path: string, max: nat)
    ensures var r := RecentAfterAdd(files, path, max);
      |r| >= 1 && r[|r| - 1] == path && path !in r[..|r| - 1]
      && (max >= 1 ==> |r| <= max)
      && (forall x :: x in r ==> x == path || x in files)
      && r[..|r| - 1] == Without(files, path)[|Without(files, path)| - (|r| - 1)..]
      && (|Without(files, path)| < max ==> forall x :: x in files ==> x in r)
  {
    var w := Without(files, path);
    var r := RecentAfterAdd(files, path, max);
    var kept := KeepLast(w, if max >= 1 then max - 1 else 0);
    assert r[..|r| - 1] == kept;
    SuffixElements(w, |w| - |kept|);
    if |w| < max {
      assert kept == w;
    }
  }

  /** The erase-remove idiom, as the loop `std::remove` runs. */
  method EraseAll(files: seq<string>, path: string) returns (kept: seq<string>)
    ensures kept == Without(files, path)
  {
    kept := [];
    for i := 0 to |files|
      invariant kept == Without(files[..i], path)
    {
      assert files[..i + 1][..i] == files[..i];
      if files[i] != path {
        kept := kept + [files[i]];
      }
    }
    assert files[..|files|] == files;
  }

  /** The loop erasing the first entry while there are more than `keep`. */
  method EraseOldest(files: seq<string>, keep: nat) returns (r: seq<string>)
    ensures r == KeepLast(files, keep)
  {
    r := files;
    while |r| > keep
      invariant |r| <= |files| && r == files[|files| - |r|..]
      invariant |r| >= keep || r == files
    {
      r := r[1..];
    }
  }

  class TskSettings {
    /** The contents of the settings cache file. */
    var cache: map<string, Json>

    /** The settings as the cache file holds them. */
    constructor (stored: map<string, Json>)
      ensures cache == stored
    {
      cache := stored;
    }

    /** `Get`: the cached value of the setting, else its standard value. */
    function Get(setting: TskSetting): (r: Json)
      reads this
      ensures SettingName(setting) !in cache ==> r == StandardSetting(setting)
      ensures SettingName(setting) in cache ==> r == cache[SettingName(setting)]
    {
      if SettingName(setting) in cache then cache[SettingName(setting)] else StandardSetting(setting)
    }

    /**
     * The maximum number of recent files as a count, when the setting
     * holds one; 10 while nothing is cached for it.
     */
    function MaxRecentFiles(): (r: Option<nat>)
      reads this
      ensures SettingName(MaxNumberOfRecentFiles) !in cache ==> r == Some(10)
      ensures r.Some? ==> Get(MaxNumberOfRecentFiles) == Num(r.value)
    {
      AsNat(Some(Get(MaxNumberOfRecentFiles)))
    }

    /** `Set`: the setting reads back as the value; nothing else changes. */
    method Set(setting: TskSetting, value: Json)
      modifies this
      ensures cache == old(cache)[SettingName(setting) := value]
      ensures Get(setting) == value
      ensures forall t :: t != setting ==> Get(t) == old(Get(t))
      ensures RecentFiles() == old(RecentFiles())
    {
      cache := cache[SettingName(setting) := value];
      SettingNamesDistinct(setting, setting);
      assert (RecentKey in cache <==> RecentKey in old(cache)) &&
        (RecentKey in cache ==> cache[RecentKey] == old(cache)[RecentKey]);
      forall t | t != setting
        ensures Get(t) == old(Get(t))
      {
        SettingNamesDistinct(t, setting);
      }
    }

    /**
     * `GetRecentFiles`: the stored list; empty when the key is missing or
     * does not hold an array of strings (the conversion throws and the
     * exception is swallowed).
     */
    function RecentFiles(): (r: seq<string>)
      reads this
      ensures r != [] ==> RecentKey in cache && cache[RecentKey] == RecentJson(r)
      ensures RecentKey !in cache ==> r == []
    {
      if RecentKey in cache && cache[RecentKey].Arr? then
        var s := StringsOf(cache[RecentKey].items);
        if s.Some? then s.value else []
      else []
    }

    /** `GetMostRecentFile`: the last of the recent files, or the empty path. */
    function MostRecentFile(): (r: string)
      reads this
      ensures RecentFiles() == [] ==> r == []
      ensures RecentFiles() != [] ==> r == RecentFiles()[|RecentFiles()| - 1]
    {
      var files := RecentFiles();
      if files == [] then [] else files[|files| - 1]
    }

    /**
     * `AddRecentFile`, corrected (the version as written is
     * `RecentAfterAddAsWritten`): every earlier occurrence of the path is
     * erased, the oldest entries are erased until the path fits within
     * the maximum, and the path is appended. The maximum is the setting's
     * value, which must be a count.
     */
    method AddRecentFile(path: string)
      modifies this
      requires MaxRecentFiles().Some?
      ensures RecentFiles() == RecentAfterAdd(old(RecentFiles()), path, old(MaxRecentFiles()).value)
      ensures cache == old(cache)[RecentKey := RecentJson(RecentFiles())]
      ensures MostRecentFile() == path
      ensures forall t :: Get(t) == old(Get(t))
    {
      var files := RecentFiles();
      var max := MaxRecentFiles().value;
      ghost var before := files;
      if path in files {
        files := EraseAll(files, path);
      }
      files := EraseOldest(files, if max >= 1 then max - 1 else 0);
      files := files + [path];
      assert files == RecentAfterAdd(before, path, max);
      StoreRecent(files);
    }

    /** Storing a list under the recent-files key: it reads back, and no setting changes. */
    method StoreRecent(files: seq<string>)
      modifies this
      ensures cache == old(cache)[RecentKey := RecentJson(files)]
      ensures RecentFiles() == files
      ensures forall t :: Get(t) == old(Get(t))
    {
      forall t
        ensures SettingName(t) != RecentKey
      {
        SettingNamesDistinct(t, t);
      }
      cache := cache[RecentKey := RecentJson(files)];
      RecentJsonRoundTrip(files);
    }
  }
}
