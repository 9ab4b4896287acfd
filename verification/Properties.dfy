// The property files (core/properties.h, Trim in core/utils.h).

module Properties {
  import opened Wrappers

  // std::isspace in the C locale.
  predicate IsSpace(c: char) {
    c == ' ' || '\t' <= c <= '\r'
  }

  function TrimLeft(s: string): string {
    if s != "" && IsSpace(s[0]) then TrimLeft(s[1..]) else s
  }

  function TrimRight(s: string): string {
    if s != "" && IsSpace(s[|s| - 1]) then TrimRight(s[..|s| - 1]) else s
  }

  function Trim(s: string): string {
    TrimRight(TrimLeft(s))
  }

  predicate Trimmed(s: string) {
    s == "" || (!IsSpace(s[0]) && !IsSpace(s[|s| - 1]))
  }

  lemma {:induction false} TrimLeftShortens(s: string)
    ensures |TrimLeft(s)| <= |s|
    ensures TrimLeft(s) == "" || !IsSpace(TrimLeft(s)[0])
    ensures |TrimLeft(s)| == |s| ==> TrimLeft(s) == s
  {
    if s != "" && IsSpace(s[0]) {
      TrimLeftShortens(s[1..]);
    }
  }

  lemma {:induction false} TrimRightShortens(s: string)
    ensures |TrimRight(s)| <= |s|
    ensures TrimRight(s) == "" || (!IsSpace(TrimRight(s)[|TrimRight(s)| - 1]) && TrimRight(s)[0] == s[0])
    ensures |TrimRight(s)| == |s| ==> TrimRight(s) == s
  {
    if s != "" && IsSpace(s[|s| - 1]) {
      TrimRightShortens(s[..|s| - 1]);
    }
  }

  // Trim returns trimmed text, never longer, and changes exactly the text that is not.
  lemma TrimTrims(s: string)
    ensures Trimmed(Trim(s)) && |Trim(s)| <= |s|
    ensures Trim(s) == s <==> Trimmed(s)
  {
    TrimLeftShortens(s);
    TrimRightShortens(TrimLeft(s));
  }

  // The space characters.
  const SPACES := [' ', '\t', '\n', '\U{0B}', '\U{0C}', '\r']

  predicate Blank(s: string) {
    forall i | 0 <= i < |s| :: s[i] in SPACES
  }

  // Text with no space character at either end.
  predicate Bare(s: string) {
    s == "" || (s[0] !in SPACES && s[|s| - 1] !in SPACES)
  }

  lemma SpacesAreSpaces(c: char)
    ensures IsSpace(c) <==> c in SPACES
  {
    assert SPACES[0] == ' ' && SPACES[1] == '\t' && SPACES[2] == '\n';
    assert SPACES[3] == '\U{0B}' && SPACES[4] == '\U{0C}' && SPACES[5] == '\r';
  }

  lemma {:induction false} TrimLeftDrops(a: string, t: string)
    requires Blank(a) && (t == "" || t[0] !in SPACES)
    ensures TrimLeft(a + t) == t
  {
    if a == "" {
      assert a + t == t;
      if t != "" {
        SpacesAreSpaces(t[0]);
      }
    } else {
      SpacesAreSpaces(a[0]);
      assert (a + t)[1..] == a[1..] + t;
      TrimLeftDrops(a[1..], t);
    }
  }

  lemma {:induction false} TrimRightDrops(t: string, b: string)
    requires Blank(b) && (t == "" || t[|t| - 1] !in SPACES)
    ensures TrimRight(t + b) == t
  {
    if b == "" {
      assert t + b == t;
      if t != "" {
        SpacesAreSpaces(t[|t| - 1]);
      }
    } else {
      var n := |b| - 1;
      SpacesAreSpaces(b[n]);
      assert (t + b)[..|t + b| - 1] == t + b[..n];
      TrimRightDrops(t, b[..n]);
    }
  }

  // Trim finds the text between the spaces at both ends.
  lemma TrimFinds(a: string, t: string, b: string)
    requires Blank(a) && Bare(t) && Blank(b)
    ensures Trim(a + t + b) == t
  {
    if t == "" {
      assert a + t + b == (a + b) + "";
      TrimLeftDrops(a + b, "");
    } else {
      assert a + t + b == a + (t + b);
      TrimLeftDrops(a, t + b);
      TrimRightDrops(t, b);
    }
  }

  lemma {:induction false} LeftSpaces(s: string) returns (a: string)
    ensures Blank(a) && s == a + TrimLeft(s)
    ensures TrimLeft(s) == "" || TrimLeft(s)[0] !in SPACES
  {
    a := "";
    if s != "" {
      SpacesAreSpaces(s[0]);
      if IsSpace(s[0]) {
        var rest := LeftSpaces(s[1..]);
        a := [s[0]] + rest;
      }
    }
  }

  lemma {:induction false} RightSpaces(s: string) returns (b: string)
    ensures Blank(b) && s == TrimRight(s) + b
    ensures TrimRight(s) == "" || TrimRight(s)[|TrimRight(s)| - 1] !in SPACES
  {
    b := "";
    if s != "" {
      var n := |s| - 1;
      SpacesAreSpaces(s[n]);
      if IsSpace(s[n]) {
        var rest := RightSpaces(s[..n]);
        b := rest + [s[n]];
      }
    }
  }

  // Every text is what Trim returns between two runs of spaces.
  lemma TrimIsMiddle(s: string) returns (a: string, b: string)
    ensures s == a + Trim(s) + b && Blank(a) && Bare(Trim(s)) && Blank(b)
  {
    a := LeftSpaces(s);
    var t := TrimLeft(s);
    b := RightSpaces(t);
    assert Trim(s) != "" ==> Trim(s)[0] == t[0];
  }

  // ---- Lines -----------------------------------------------------------------------

  // The lines of a text that starts with c and goes on with the given lines.
  function Before(c: char, lines: seq<string>): (r: seq<string>)
    requires lines != []
    ensures r != []
  {
    if c == '\n' then [""] + lines else [[c] + lines[0]] + lines[1..]
  }

  // The pieces std::getline cuts a text into.
  function Lines(s: string): (r: seq<string>)
    ensures r != []
  {
    if s == "" then [""] else Before(s[0], Lines(s[1..]))
  }

  lemma BeforeConcat(c: char, a: seq<string>, b: seq<string>)
    requires a != []
    ensures Before(c, a + b) == Before(c, a) + b
  {
    assert (a + b)[1..] == a[1..] + b;
  }

  lemma {:induction false} LinesOfConcat(a: string, b: string)
    ensures Lines(a + "\n" + b) == Lines(a) + Lines(b)
  {
    var s := a + "\n" + b;
    if a == "" {
      assert s == "\n" + b;
      assert s[1..] == b;
    } else {
      hide Before;
      LinesOfConcat(a[1..], b);
      BeforeConcat(a[0], Lines(a[1..]), Lines(b));
      assert s[1..] == a[1..] + "\n" + b;
      assert s[0] == a[0];
    }
  }

  lemma {:induction false} LinesOfOne(s: string)
    requires '\n' !in s
    ensures Lines(s) == [s]
  {
    if s != "" {
      LinesOfOne(s[1..]);
      assert s == [s[0]] + s[1..];
    }
  }

  // The position of the first c.
  function Find(s: string, c: char): (r: Option<nat>)
    ensures r.Some? ==> r.value < |s|
  {
    if s == "" then None
    else if s[0] == c then Some(0)
    else
      match Find(s[1..], c)
      case None => None
      case Some(i) => Some(i + 1)
  }

  lemma {:induction false} FindIsFirst(s: string, c: char)
    ensures Find(s, c).None? <==> c !in s
    ensures Find(s, c).Some? ==> Find(s, c).value < |s| && s[Find(s, c).value] == c && c !in s[..Find(s, c).value]
  {
    if s != "" {
      FindIsFirst(s[1..], c);
      if s[0] != c && Find(s[1..], c).Some? {
        var i := Find(s[1..], c).value;
        assert s[..i + 1] == [s[0]] + s[1..][..i];
      }
    }
  }

  // ---- Loading ---------------------------------------------------------------------

  type Setting = (string, string)

  // The setting of a line: none for a comment or a line without '='.
  function SettingOf(line: string): Option<Setting> {
    if line != "" && line[0] == '#' then None
    else
      match Find(line, '=')
      case None => None
      case Some(pos) => Some((Trim(line[..pos]), Trim(line[pos + 1..])))
  }

  function Listed(s: Option<Setting>): seq<Setting> {
    match s
    case None => []
    case Some(v) => [v]
  }

  function SettingsOf(lines: seq<string>): seq<Setting> {
    if lines == [] then [] else Listed(SettingOf(lines[0])) + SettingsOf(lines[1..])
  }

  // Settings take effect one after another.
  function Updated(props: map<string, string>, settings: seq<Setting>): map<string, string>
    decreases |settings|
  {
    if settings == [] then props
    else Updated(props[settings[0].0 := settings[0].1], settings[1..])
  }

  // The properties after loading a text.
  function LoadedText(props: map<string, string>, text: string): map<string, string> {
    Updated(props, SettingsOf(Lines(text)))
  }

  // The properties after one line.
  function AfterLine(props: map<string, string>, line: string): map<string, string> {
    match SettingOf(line)
    case None => props
    case Some(s) => props[s.0 := s.1]
  }

  lemma LineTakesEffect(props: map<string, string>, line: string, rest: seq<string>)
    ensures Updated(props, SettingsOf([line] + rest)) == Updated(AfterLine(props, line), SettingsOf(rest))
    ensures rest == [] ==> Updated(props, SettingsOf([line] + rest)) == AfterLine(props, line)
  {
    hide SettingOf;
    assert ([line] + rest)[1..] == rest;
    match SettingOf(line)
    case None =>
      assert SettingsOf([line] + rest) == SettingsOf(rest);
    case Some(s) =>
      assert SettingsOf([line] + rest) == [s] + SettingsOf(rest);
      assert ([s] + SettingsOf(rest))[1..] == SettingsOf(rest);
  }

  // The value of a property, or a default.
  function ValueOf(props: map<string, string>, key: string, defaultValue: string): string {
    if key in props then props[key] else defaultValue
  }

  function Or(value: Option<string>, other: string): string {
    if value.Some? then value.value else other
  }

  class PropertySet {
    var properties: map<string, string>

    constructor ()
      ensures properties == map[]
      ensures forall k, d :: GetProperty(k, d) == d
    {
      properties := map[];
    }

    function GetProperty(key: string, defaultValue: string): string
      reads this
    {
      ValueOf(properties, key, defaultValue)
    }

    method SetProperty(key: string, value: string)
      modifies this
      ensures properties == old(properties)[key := value]
      ensures forall k, d :: GetProperty(k, d) == if k == key then value else old(GetProperty(k, d))
    {
      properties := properties[key := value];
    }

    // The input is None when the file is not open; then Load throws.
    method Load(input: Option<string>) returns (threw: bool)
      modifies this
      ensures threw <==> input.None?
      ensures properties == if threw then old(properties) else LoadedText(old(properties), input.value)
      ensures !threw ==> forall k, d ::
                GetProperty(k, d) == Or(LastValue(SettingsOf(Lines(input.value)), k), old(GetProperty(k, d)))
    {
      hide SettingsOf, Updated, Trim, Find, Lines, LastValue;
      if input.None? {
        return true;
      }
      var text := input.value;
      assert text[0..] == text;
      var pos, eof := 0, false;
      ghost var before := properties;
      while !eof
        invariant pos <= |text|
        invariant Updated(before, SettingsOf(Lines(text)))
                  == if eof then properties else Updated(properties, SettingsOf(Lines(text[pos..])))
        decreases |text| - pos, !eof
      {
        var line;
        line, pos, eof := GetLine(text, pos);
        LineTakesEffect(properties, line, if eof then [] else Lines(text[pos..]));
        FindIsFirst(line, '=');
        assert [line] + [] == [line];
        if line != "" && line[0] == '#' {
          continue;
        }
        var eq := Find(line, '=');
        if eq.None? {
          continue;
        }
        SetProperty(Trim(line[..eq.value]), Trim(line[eq.value + 1..]));
      }
      threw := false;
      forall k, d
        ensures GetProperty(k, d) == Or(LastValue(SettingsOf(Lines(text)), k), old(GetProperty(k, d)))
      {
        ValueAfterLoad(before, text, k, d);
      }
    }
  }

  // std::getline: the text up to the next newline, or up to the end of the file.
  method GetLine(text: string, pos: nat) returns (line: string, next: nat, eof: bool)
    requires pos <= |text|
    ensures pos <= next <= |text| && (eof || pos < next)
    ensures Lines(text[pos..]) == if eof then [line] else [line] + Lines(text[next..])
  {
    next := pos;
    while next < |text| && text[next] != '\n'
      invariant pos <= next <= |text|
      invariant '\n' !in text[pos..next]
    {
      next := next + 1;
    }
    line := text[pos..next];
    LinesOfOne(line);
    if next == |text| {
      assert text[pos..] == line;
      eof := true;
    } else {
      assert text[pos..] == line + "\n" + text[next + 1..];
      LinesOfConcat(line, text[next + 1..]);
      next := next + 1;
      eof := false;
    }
  }

  lemma {:induction false} UpdatedConcat(props: map<string, string>, a: seq<Setting>, b: seq<Setting>)
    ensures Updated(props, a + b) == Updated(Updated(props, a), b)
    decreases |a|
  {
    if a == [] {
      assert a + b == b;
    } else {
      UpdatedConcat(props[a[0].0 := a[0].1], a[1..], b);
      assert (a + b)[1..] == a[1..] + b;
    }
  }

  lemma {:induction false} SettingsConcat(a: seq<string>, b: seq<string>)
    ensures SettingsOf(a + b) == SettingsOf(a) + SettingsOf(b)
  {
    hide SettingOf, Listed;
    if a == [] {
      assert a + b == b;
    } else {
      SettingsConcat(a[1..], b);
      var first := Listed(SettingOf(a[0]));
      assert (a + b)[1..] == a[1..] + b && (a + b)[0] == a[0];
      assert SettingsOf(a + b) == first + (SettingsOf(a[1..]) + SettingsOf(b));
    }
  }

  // Loading a text of two parts is loading the parts in turn.
  lemma LoadIsCompositional(props: map<string, string>, a: string, b: string)
    ensures LoadedText(props, a + "\n" + b) == LoadedText(LoadedText(props, a), b)
  {
    LinesOfConcat(a, b);
    SettingsConcat(Lines(a), Lines(b));
    UpdatedConcat(props, SettingsOf(Lines(a)), SettingsOf(Lines(b)));
  }

  // ---- Last setting wins -----------------------------------------------------------

  function LastValue(settings: seq<Setting>, key: string): Option<string> {
    if settings == [] then None
    else if settings[|settings| - 1].0 == key then Some(settings[|settings| - 1].1)
    else LastValue(settings[..|settings| - 1], key)
  }

  // A property has the value of its last setting, or the one it had before.
  lemma {:induction false} LastSettingWins(props: map<string, string>, settings: seq<Setting>, key: string)
    ensures key in Updated(props, settings) <==> key in props || LastValue(settings, key).Some?
    ensures key in Updated(props, settings) ==>
              Updated(props, settings)[key]
              == match LastValue(settings, key)
                 case Some(v) => v
                 case None => if key in props then props[key] else ""
    decreases |settings|
  {
    if settings != [] {
      var n := |settings| - 1;
      assert settings == settings[..n] + [settings[n]];
      UpdatedConcat(props, settings[..n], [settings[n]]);
      LastSettingWins(props, settings[..n], key);
      var before := Updated(props, settings[..n]);
      assert [settings[n]][1..] == [];
      assert Updated(before, [settings[n]]) == before[settings[n].0 := settings[n].1];
    }
  }

  // What is read after a file is loaded: the value of the last line that sets the property,
  // or what was read before.
  lemma ValueAfterLoad(props: map<string, string>, text: string, key: string, defaultValue: string)
    ensures ValueOf(LoadedText(props, text), key, defaultValue)
            == Or(LastValue(SettingsOf(Lines(text)), key), ValueOf(props, key, defaultValue))
  {
    hide SettingsOf, Lines, Updated, LastValue;
    LastSettingWins(props, SettingsOf(Lines(text)), key);
  }

  // ---- Printing and loading --------------------------------------------------------

  function PrintSetting(s: Setting): string {
    s.0 + "=" + s.1
  }

  // What a line of the form key=value can carry.
  predicate Printable(s: Setting) {
    Trimmed(s.0) && Trimmed(s.1) && '=' !in s.0 && (s.0 == "" || s.0[0] != '#')
  }

  lemma {:induction false} FindInConcat(a: string, c: char, b: string)
    ensures c !in a ==> Find(a + [c] + b, c) == Some(|a|)
    ensures c in a ==> Find(a + [c] + b, c).Some? && Find(a + [c] + b, c).value < |a|
  {
    var s := a + [c] + b;
    if a == "" {
      assert s[0] == c;
    } else {
      FindInConcat(a[1..], c, b);
      assert s[1..] == a[1..] + [c] + b;
      assert s[0] == a[0];
    }
  }

  // A key=value line loads as that key and value exactly when both are trimmed, the key
  // has no '=', and the line does not look like a comment.
  lemma SettingReadsBack(s: Setting)
    ensures SettingOf(PrintSetting(s)) == Some(s) <==> Printable(s)
  {
    hide Find, Trim, Trimmed;
    var line := PrintSetting(s);
    assert line == s.0 + ['='] + s.1;
    FindInConcat(s.0, '=', s.1);
    assert line[..|s.0|] == s.0 && line[|s.0| + 1..] == s.1;
    TrimTrims(s.0);
    TrimTrims(s.1);
    if '=' in s.0 {
      TrimTrims(line[..Find(line, '=').value]);
    }
  }

  // A line with any spaces around its key and its value sets the key to the value, exactly if
  // the key has no '=' and the line does not begin with '#'.
  lemma SpacedSetting(a: string, key: string, b: string, c: string, value: string, d: string)
    requires Blank(a) && Bare(key) && Blank(b) && Blank(c) && Bare(value) && Blank(d)
    ensures SettingOf(a + key + b + "=" + c + value + d) == Some((key, value))
            <==> '=' !in key && !(a == "" && key != "" && key[0] == '#')
  {
    hide Find, Trim;
    var left, right := a + key + b, c + value + d;
    var line := left + ['='] + right;
    assert a + key + b + "=" + c + value + d == line;
    FindInConcat(left, '=', right);
    assert line[..|left|] == left && line[|left| + 1..] == right;
    TrimFinds(a, key, b);
    TrimFinds(c, value, d);
    assert '=' in left <==> '=' in key;
    assert left != "" ==> line[0] == left[0];
    FirstOfLine(a, key, b);
    if '=' in left {
      var pos := Find(line, '=').value;
      FindIsFirst(line, '=');
      assert '=' !in line[..pos];
      var x, y := TrimIsMiddle(line[..pos]);
      assert forall ch | ch in Trim(line[..pos]) :: ch in line[..pos];
    }
  }

  lemma FirstOfLine(a: string, key: string, b: string)
    requires Blank(a) && Blank(b)
    ensures a + key + b != "" ==>
              ((a + key + b)[0] == '#' <==> a == "" && key != "" && key[0] == '#')
  {
    assert '#' !in SPACES;
  }

  // So such a line, loaded, does that and nothing else.
  lemma SpacedLineLoads(props: map<string, string>,
                        a: string, key: string, b: string, c: string, value: string, d: string)
    requires Blank(a) && Bare(key) && Blank(b) && Blank(c) && Bare(value) && Blank(d)
    requires '=' !in key && !(a == "" && key != "" && key[0] == '#')
    requires '\n' !in a + key + b + "=" + c + value + d
    ensures LoadedText(props, a + key + b + "=" + c + value + d) == props[key := value]
  {
    hide SettingOf, Blank, Bare;
    var line := a + key + b + "=" + c + value + d;
    SpacedSetting(a, key, b, c, value, d);
    LinesOfOne(line);
    LineTakesEffect(props, line, []);
    assert [line] + [] == [line];
  }

  function Print(settings: seq<Setting>): string {
    if settings == [] then "" else PrintSetting(settings[0]) + "\n" + Print(settings[1..])
  }

  predicate AllPrintable(settings: seq<Setting>) {
    forall i | 0 <= i < |settings| :: Printable(settings[i]) && '\n' !in settings[i].0 && '\n' !in settings[i].1
  }

  // Printed settings load as themselves.
  lemma {:induction false} PrintedSettingsLoad(props: map<string, string>, settings: seq<Setting>)
    requires AllPrintable(settings)
    ensures LoadedText(props, Print(settings)) == Updated(props, settings)
    decreases |settings|
  {
    hide SettingOf, Printable;
    if settings == [] {
      EmptyTextLoads(props);
    } else {
      var line := PrintSetting(settings[0]);
      LoadIsCompositional(props, line, Print(settings[1..]));
      SettingReadsBack(settings[0]);
      LinesOfOne(line);
      LineTakesEffect(props, line, []);
      assert [line] + [] == [line];
      PrintedSettingsLoad(AfterLine(props, line), settings[1..]);
    }
  }

  lemma EmptyTextLoads(props: map<string, string>)
    ensures LoadedText(props, "") == props
  {
    LineTakesEffect(props, "", []);
    assert [""] + [] == [""];
  }

  // Settings that list a map's entries.
  predicate Lists(settings: seq<Setting>, m: map<string, string>) {
    && (forall i | 0 <= i < |settings| :: settings[i].0 in m && m[settings[i].0] == settings[i].1)
    && (forall key | key in m :: (key, m[key]) in settings)
  }

  // Any listing of a map's entries, printed, loads as the map.
  lemma PrintedMapLoads(m: map<string, string>, settings: seq<Setting>)
    requires AllPrintable(settings) && Lists(settings, m)
    ensures LoadedText(map[], Print(settings)) == m
  {
    hide Print, AllPrintable, LoadedText, Updated, LastValue;
    PrintedSettingsLoad(map[], settings);
    var r := Updated(map[], settings);
    forall key: string
      ensures key in r <==> key in m
      ensures key in r ==> r[key] == m[key]
    {
      LastValueOfListing(m, settings, key);
      LastSettingWins(map[], settings, key);
    }
  }

  lemma {:induction false} LastValueOfListing(m: map<string, string>, settings: seq<Setting>, key: string)
    requires forall i | 0 <= i < |settings| :: settings[i].0 in m && m[settings[i].0] == settings[i].1
    ensures LastValue(settings, key).Some? ==> key in m && LastValue(settings, key) == Some(m[key])
    ensures key in m && (key, m[key]) in settings ==> LastValue(settings, key).Some?
  {
    if settings != [] {
      LastValueOfListing(m, settings[..|settings| - 1], key);
      assert forall s | s in settings :: s == settings[|settings| - 1] || s in settings[..|settings| - 1];
    }
  }

  // Every map has a listing.
  lemma {:induction false} ListingExists(m: map<string, string>) returns (settings: seq<Setting>)
    ensures Lists(settings, m)
    decreases |m|
  {
    if m == map[] {
      settings := [];
    } else {
      var key :| key in m;
      var rest := m - {key};
      assert |rest.Keys| < |m.Keys| by {
        assert rest.Keys == m.Keys - {key};
      }
      var others := ListingExists(rest);
      settings := [(key, m[key])] + others;
      forall k | k in m
        ensures (k, m[k]) in settings
      {
        assert k != key ==> k in rest;
      }
    }
  }

  // Every map of printable entries can be written as a property file that loads as the map.
  lemma PrintableMapRoundTrips(m: map<string, string>) returns (text: string)
    requires forall key | key in m :: Printable((key, m[key])) && '\n' !in key && '\n' !in m[key]
    ensures LoadedText(map[], text) == m
  {
    hide Printable, LoadedText, Print;
    var settings := ListingExists(m);
    PrintedMapLoads(m, settings);
    text := Print(settings);
  }
}
