/** The TeamSpeak server query text: escaping, commands, and items. */
module ServerQuery {
  import opened Wrappers
  import opened Sequences

  // ---------------------------------------------------------------- escaping

  /** The table of the constructor. Its control characters stand for themselves. */
  function EscapeChar(c: char): string {
    if c == '\\' then "\\\\"
    else if c == '/' then "\\/"
    else if c == ' ' then "\\s"
    else if c == '|' then "\\p"
    else [c]
  }

  function Codes(s: string): (r: seq<string>)
    ensures |r| == |s|
  {
    seq(|s|, i requires 0 <= i < |s| => EscapeChar(s[i]))
  }

  function Escape(s: string): string { Flatten(Codes(s)) }

  method EscapeText(s: string) returns (enc: string)
    ensures enc == Escape(s)
  {
    enc := "";
    ghost var codes := Codes(s);
    for i := 0 to |s|
      invariant enc == Flatten(codes[..i])
    {
      assert codes[..i + 1][..i] == codes[..i];
      enc := enc + EscapeChar(s[i]);
    }
    assert codes[..|s|] == codes;
  }

  /** The four characters that are escaped, and every other one. */
  lemma EscapeTable(c: char)
    ensures Escape("\\") == "\\\\" && Escape("/") == "\\/" && Escape(" ") == "\\s" && Escape("|") == "\\p"
    ensures c != '\\' && c != '/' && c != ' ' && c != '|' ==> Escape([c]) == [c]
  {
    EscapeOne('\\');
    EscapeOne('/');
    EscapeOne(' ');
    EscapeOne('|');
    EscapeOne(c);
  }

  lemma EscapeOne(c: char)
    ensures Escape([c]) == EscapeChar(c)
  {
    EscapeFirst([c]);
    assert [c][1..] == "" && Codes("") == [] && Escape("") == "";
    assert EscapeChar(c) + "" == EscapeChar(c);
  }

  /** Escaped text can stand between spaces and bars. */
  lemma EscapeHasNoSeparators(s: string)
    ensures ' ' !in Escape(s) && '|' !in Escape(s)
  {
    NotInFlatten(Codes(s), ' ');
    NotInFlatten(Codes(s), '|');
  }

  lemma {:induction false} NotInFlatten(parts: seq<string>, c: char)
    requires forall i :: 0 <= i < |parts| ==> c !in parts[i]
    ensures c !in Flatten(parts)
  {
    if parts != [] {
      NotInFlatten(parts[..|parts| - 1], c);
    }
  }

  lemma EscapeFirst(s: string)
    requires s != ""
    ensures Escape(s) == EscapeChar(s[0]) + Escape(s[1..])
  {
    assert Codes(s) == [EscapeChar(s[0])] + Codes(s[1..]);
    FlattenAppend([EscapeChar(s[0])], Codes(s[1..]));
    assert [EscapeChar(s[0])][..0] == [];
  }

  /** Reads escaped text from the front: a backslash and the next character stand for one. */
  function Decode(s: string): string {
    if s == [] then []
    else if s[0] == '\\' && |s| > 1 then
      [if s[1] == 's' then ' ' else if s[1] == 'p' then '|' else s[1]] + Decode(s[2..])
    else [s[0]] + Decode(s[1..])
  }

  lemma DecodeFirst(c: char, rest: string)
    ensures Decode(EscapeChar(c) + rest) == [c] + Decode(rest)
  {
    var s := EscapeChar(c) + rest;
    if |EscapeChar(c)| == 2 {
      assert s[2..] == rest;
    } else {
      assert s[1..] == rest;
    }
  }

  lemma {:induction false} DecodeInvertsEscape(s: string)
    ensures Decode(Escape(s)) == s
  {
    if s != [] {
      EscapeFirst(s);
      DecodeFirst(s[0], Escape(s[1..]));
      DecodeInvertsEscape(s[1..]);
    }
  }

  /** Different values never look the same on the wire. */
  lemma EscapeInjective(s: string, t: string)
    requires Escape(s) == Escape(t)
    ensures s == t
  {
    DecodeInvertsEscape(s);
    DecodeInvertsEscape(t);
  }

  // ---------------------------------------------------------------- commands

  datatype Parameter = Parameter(key: string, values: seq<string>)

  /** key=value|key=value */
  function ValuesText(key: string, values: seq<string>): string {
    if values == [] then ""
    else
      var n := |values| - 1;
      ValuesText(key, values[..n]) + (if n > 0 then "|" else "") + key + "=" + Escape(values[n])
  }

  function ParametersText(ps: seq<Parameter>): string {
    if ps == [] then ""
    else
      var n := |ps| - 1;
      ParametersText(ps[..n]) + " " + ValuesText(ps[n].key, ps[n].values)
  }

  function OptionText(option: string): string {
    if option != "" && option[0] == '-' then " " + option else " -" + option
  }

  function OptionsText(options: seq<string>): string {
    if options == [] then "" else OptionsText(options[..|options| - 1]) + OptionText(options[|options| - 1])
  }

  function Command(cmd: string, ps: seq<Parameter>, options: seq<string>): string {
    if cmd == "" then "" else cmd + ParametersText(ps) + OptionsText(options) + "\n"
  }

  method CreateCommand(cmd: string, ps: seq<Parameter>, options: seq<string>) returns (s: string)
    ensures s == Command(cmd, ps, options)
  {
    if cmd == "" {
      return "";
    }
    s := AppendParameters(cmd, ps);
    s := AppendOptions(s, options);
    s := s + "\n";
  }

  method AppendParameters(s0: string, ps: seq<Parameter>) returns (s: string)
    ensures s == s0 + ParametersText(ps)
  {
    s := s0;
    for i := 0 to |ps|
      invariant s == s0 + ParametersText(ps[..i])
    {
      assert ps[..i + 1][..i] == ps[..i];
      var values := CreateValues(ps[i].key, ps[i].values);
      ConcatAssociative(s0, ParametersText(ps[..i]), " ");
      ConcatAssociative(s0, ParametersText(ps[..i]) + " ", values);
      s := s + " " + values;
    }
    assert ps[..|ps|] == ps;
  }

  method AppendOptions(s0: string, options: seq<string>) returns (s: string)
    ensures s == s0 + OptionsText(options)
  {
    s := s0;
    for i := 0 to |options|
      invariant s == s0 + OptionsText(options[..i])
    {
      assert options[..i + 1][..i] == options[..i];
      ConcatAssociative(s0, OptionsText(options[..i]), OptionText(options[i]));
      var text := " ";
      if options[i] == "" || options[i][0] != '-' {
        text := text + "-";
      }
      text := text + options[i];
      assert text == OptionText(options[i]);
      s := s + text;
    }
    assert options[..|options|] == options;
  }

  /** The inner loop over the values of one key. */
  method CreateValues(key: string, values: seq<string>) returns (s: string)
    ensures s == ValuesText(key, values)
  {
    s := "";
    for j := 0 to |values|
      invariant s == ValuesText(key, values[..j])
    {
      assert values[..j + 1][..j] == values[..j];
      if j > 0 {
        s := s + "|";
      }
      var value := EscapeText(values[j]);
      s := s + key + "=" + value;
    }
    assert values[..|values|] == values;
  }

  // ---------------------------------------------------------------- items

  /** QString::indexOf: the first occurrence, or none. */
  function IndexOf(s: string, c: char): (r: Option<nat>)
    ensures r.None? <==> c !in s
    ensures r.Some? ==> r.value < |s| && s[r.value] == c && c !in s[..r.value]
  {
    if s == [] then None
    else if s[0] == c then Some(0)
    else
      match IndexOf(s[1..], c)
      case None => None
      case Some(i) =>
        assert s[..i + 1] == [s[0]] + s[1..][..i];
        Some(i + 1)
  }

  /** QString::split, keeping empty parts. */
  function Split(s: string, c: char): (r: seq<string>)
    ensures r != [] && forall i :: 0 <= i < |r| ==> c !in r[i]
    decreases |s|
  {
    match IndexOf(s, c)
    case None => [s]
    case Some(i) => [s[..i]] + Split(s[i + 1..], c)
  }

  /** One part: a word without '=' is a key without value; a part starting with '=' is
      ignored. */
  function AddField(obj: map<string, string>, kv: string): map<string, string> {
    match IndexOf(kv, '=')
    case None => obj[kv := ""]
    case Some(pos) => if pos > 0 then obj[kv[..pos] := kv[pos + 1..]] else obj
  }

  function Fields(kvs: seq<string>): map<string, string> {
    if kvs == [] then map[] else AddField(Fields(kvs[..|kvs| - 1]), kvs[|kvs| - 1])
  }

  function Item(data: string): map<string, string> { Fields(Split(data, ' ')) }

  method ParseItem(data: string) returns (obj: map<string, string>)
    ensures obj == Item(data)
  {
    obj := map[];
    var kvs := Split(data, ' ');
    for i := 0 to |kvs|
      invariant obj == Fields(kvs[..i])
    {
      OneMorePart(kvs, i);
      obj := ParseField(obj, kvs[i]);
    }
    assert kvs[..|kvs|] == kvs;
  }

  lemma OneMorePart(kvs: seq<string>, i: nat)
    requires i < |kvs|
    ensures Fields(kvs[..i + 1]) == AddField(Fields(kvs[..i]), kvs[i])
  {
    assert kvs[..i + 1] == kvs[..i] + [kvs[i]];
    LastField(kvs[..i], kvs[i]);
  }

  /** One turn of the loop. */
  method ParseField(obj0: map<string, string>, kv: string) returns (obj: map<string, string>)
    ensures obj == AddField(obj0, kv)
  {
    obj := obj0;
    var pos := IndexOf(kv, '=');
    if pos.None? {
      obj := obj[kv := ""];
    } else if pos.value > 0 {
      if pos.value == |kv| - 1 {
        obj := obj[kv[..pos.value] := ""];
      } else {
        obj := obj[kv[..pos.value] := kv[pos.value + 1..]];
      }
    }
  }

  function Items(datas: seq<string>): (r: seq<map<string, string>>)
    ensures |r| == |datas|
  {
    seq(|datas|, i requires 0 <= i < |datas| => Item(datas[i]))
  }

  method ParseItemList(data: string) returns (l: seq<map<string, string>>)
    ensures l == Items(Split(data, '|'))
  {
    l := [];
    var items := Split(data, '|');
    for i := 0 to |items|
      invariant l == Items(items[..i])
    {
      var item := ParseItem(items[i]);
      l := l + [item];
    }
    assert items[..|items|] == items;
  }

  // ---------------------------------------------------------------- round trip

  lemma NoneIn(a: string, b: string, c: char)
    requires c !in a && c !in b
    ensures c !in a + b
  {}

  lemma IndexOfIs(s: string, c: char, i: nat)
    requires i < |s| && s[i] == c && c !in s[..i]
    ensures IndexOf(s, c) == Some(i)
  {
    assert s[i] in s;
  }

  /** A part without the separator is split off at the end. */
  lemma {:induction false} SplitLast(a: string, b: string, c: char)
    requires c !in b
    ensures Split(a + [c] + b, c) == Split(a, c) + [b]
    decreases |a|
  {
    var s := a + [c] + b;
    match IndexOf(a, c)
    case None =>
      assert s[..|a|] == a && s[|a| + 1..] == b;
      IndexOfIs(s, c, |a|);
      assert Split(b, c) == [b];
    case Some(i) =>
      assert s[..i] == a[..i] && s[i + 1..] == a[i + 1..] + [c] + b;
      IndexOfIs(s, c, i);
      SplitLast(a[i + 1..], b, c);
  }

  /** Names and keys as the round trip needs them. */
  predicate Clean(word: string) { word != "" && ' ' !in word && '=' !in word }

  predicate SingleValued(ps: seq<Parameter>) {
    forall i :: 0 <= i < |ps| ==> Clean(ps[i].key) && |ps[i].values| == 1
  }

  function FieldText(p: Parameter): string
    requires |p.values| == 1
  {
    p.key + "=" + Escape(p.values[0])
  }

  function FieldTexts(ps: seq<Parameter>): (r: seq<string>)
    requires SingleValued(ps)
    ensures |r| == |ps|
  {
    seq(|ps|, i requires 0 <= i < |ps| => FieldText(ps[i]))
  }

  lemma SingleValueText(p: Parameter)
    requires Clean(p.key) && |p.values| == 1
    ensures ValuesText(p.key, p.values) == FieldText(p)
    ensures ' ' !in FieldText(p)
  {
    assert p.values[..0] == [];
    assert "" + "" + p.key == p.key;
    EscapeHasNoSeparators(p.values[0]);
  }

  lemma LastText(ps: seq<Parameter>)
    requires ps != [] && Clean(ps[|ps| - 1].key) && |ps[|ps| - 1].values| == 1
    ensures ParametersText(ps) == ParametersText(ps[..|ps| - 1]) + " " + FieldText(ps[|ps| - 1])
    ensures ' ' !in FieldText(ps[|ps| - 1])
  {
    SingleValueText(ps[|ps| - 1]);
  }

  lemma LastFieldText(ps: seq<Parameter>)
    requires SingleValued(ps) && ps != []
    ensures FieldTexts(ps) == FieldTexts(ps[..|ps| - 1]) + [FieldText(ps[|ps| - 1])]
  {}

  lemma OneMoreField(cmd: string, before: string, fields: seq<string>, field: string)
    requires Split(cmd + before, ' ') == [cmd] + fields && ' ' !in field
    ensures Split(cmd + (before + " " + field), ' ') == [cmd] + (fields + [field])
  {
    ConcatAssociative(cmd, before, " ");
    ConcatAssociative(cmd, before + " ", field);
    SplitLast(cmd + before, field, ' ');
    ConcatAssociative([cmd], fields, [field]);
  }

  lemma {:induction false} CommandSplits(cmd: string, ps: seq<Parameter>)
    requires ' ' !in cmd && SingleValued(ps)
    ensures Split(cmd + ParametersText(ps), ' ') == [cmd] + FieldTexts(ps)
  {
    if ps == [] {
      assert cmd + ParametersText(ps) == cmd;
    } else {
      var n := |ps| - 1;
      var before, fields, field := ParametersText(ps[..n]), FieldTexts(ps[..n]), FieldText(ps[n]);
      CommandSplits(cmd, ps[..n]);
      LastText(ps);
      LastFieldText(ps);
      OneMoreField(cmd, before, fields, field);
    }
  }

  lemma FieldRecovered(obj: map<string, string>, p: Parameter)
    requires Clean(p.key) && |p.values| == 1
    ensures AddField(obj, FieldText(p)) == obj[p.key := Escape(p.values[0])]
  {
    var kv := FieldText(p);
    assert kv[..|p.key|] == p.key && kv[|p.key| + 1..] == Escape(p.values[0]);
    IndexOfIs(kv, '=', |p.key|);
  }

  /** The command, and each key with its escaped value; of equal keys the last one counts. */
  function Expected(cmd: string, ps: seq<Parameter>): map<string, string>
    requires SingleValued(ps)
  {
    if ps == [] then map[cmd := ""]
    else
      var n := |ps| - 1;
      Expected(cmd, ps[..n])[ps[n].key := Escape(ps[n].values[0])]
  }

  lemma {:induction false} FieldsRecovered(cmd: string, ps: seq<Parameter>)
    requires Clean(cmd) && SingleValued(ps)
    ensures Fields([cmd] + FieldTexts(ps)) == Expected(cmd, ps)
  {
    if ps == [] {
      assert [cmd] + FieldTexts(ps) == [cmd] && [cmd][..0] == [];
    } else {
      var n := |ps| - 1;
      FieldsRecovered(cmd, ps[..n]);
      FieldRecovered(Expected(cmd, ps[..n]), ps[n]);
      LastField([cmd] + FieldTexts(ps[..n]), FieldText(ps[n]));
      ConcatAssociative([cmd], FieldTexts(ps[..n]), [FieldText(ps[n])]);
      LastFieldText(ps);
    }
  }

  lemma LastField(kvs: seq<string>, kv: string)
    ensures Fields(kvs + [kv]) == AddField(Fields(kvs), kv)
  {
    assert (kvs + [kv])[..|kvs|] == kvs;
  }

  ghost predicate HasKey(ps: seq<Parameter>, k: string) {
    exists i :: 0 <= i < |ps| && ps[i].key == k
  }

  lemma {:induction false} ExpectedKeys(cmd: string, ps: seq<Parameter>)
    requires SingleValued(ps)
    ensures forall k :: k in Expected(cmd, ps) <==> k == cmd || HasKey(ps, k)
  {
    if ps != [] {
      var n := |ps| - 1;
      ExpectedKeys(cmd, ps[..n]);
      forall k
        ensures HasKey(ps, k) <==> ps[n].key == k || HasKey(ps[..n], k)
      {
        if i :| 0 <= i < n && ps[i].key == k {
          assert ps[..n][i].key == k;
        }
      }
    }
  }

  lemma {:induction false} ExpectedValues(cmd: string, ps: seq<Parameter>)
    requires SingleValued(ps)
    requires forall i, j :: 0 <= i < j < |ps| ==> ps[i].key != ps[j].key
    ensures cmd in Expected(cmd, ps) && (!HasKey(ps, cmd) ==> Expected(cmd, ps)[cmd] == "")
    ensures forall i :: 0 <= i < |ps| ==>
              ps[i].key in Expected(cmd, ps) && Expected(cmd, ps)[ps[i].key] == Escape(ps[i].values[0])
  {
    if ps != [] {
      var n := |ps| - 1;
      ExpectedValues(cmd, ps[..n]);
      assert ps[n].key == cmd ==> HasKey(ps, cmd);
      if i :| 0 <= i < n && ps[..n][i].key == cmd {
        assert ps[i].key == cmd;
      }
      forall i | 0 <= i < n
        ensures ps[i].key in Expected(cmd, ps) && Expected(cmd, ps)[ps[i].key] == Escape(ps[i].values[0])
      {
        assert ps[..n][i] == ps[i];
      }
    }
  }

  /** Parsing a command without options (and without its final newline) recovers every key
      with its escaped value, and nothing else but the command, whose value is empty unless
      one of the keys has its name. */
  lemma QueryRoundTrip(cmd: string, ps: seq<Parameter>)
    requires Clean(cmd) && SingleValued(ps)
    requires forall i, j :: 0 <= i < j < |ps| ==> ps[i].key != ps[j].key
    ensures var line := Command(cmd, ps, []);
      && line != "" && line[|line| - 1] == '\n'
      && var obj := Item(line[..|line| - 1]);
      && cmd in obj && (!HasKey(ps, cmd) ==> obj[cmd] == "")
      && (forall i :: 0 <= i < |ps| ==> ps[i].key in obj && obj[ps[i].key] == Escape(ps[i].values[0]))
      && (forall k :: k in obj <==> k == cmd || HasKey(ps, k))
  {
    var line := Command(cmd, ps, []);
    assert line[..|line| - 1] == cmd + ParametersText(ps);
    CommandSplits(cmd, ps);
    FieldsRecovered(cmd, ps);
    ExpectedKeys(cmd, ps);
    ExpectedValues(cmd, ps);
  }

  /** A part that starts with = is ignored. */
  lemma KeylessFieldIgnored(obj: map<string, string>, value: string)
    ensures AddField(obj, "=" + value) == obj
  {
    assert ("=" + value)[0] == '=';
  }

  // ---------------------------------------------------------------- options and lists of values

  /** The key under which an option is found: with its dash. */
  function OptionKey(option: string): string {
    if option != "" && option[0] == '-' then option else "-" + option
  }

  predicate CleanOptions(options: seq<string>) {
    forall i :: 0 <= i < |options| ==> ' ' !in options[i] && '=' !in options[i]
  }

  function OptionKeys(options: seq<string>): seq<string> {
    if options == [] then [] else OptionKeys(options[..|options| - 1]) + [OptionKey(options[|options| - 1])]
  }

  lemma LastOption(options: seq<string>)
    requires options != [] && CleanOptions(options)
    ensures var n := |options| - 1;
      && OptionsText(options) == OptionsText(options[..n]) + (" " + OptionKey(options[n]))
      && ' ' !in OptionKey(options[n]) && '=' !in OptionKey(options[n])
  {
    assert " -" + options[|options| - 1] == " " + ("-" + options[|options| - 1]);
  }

  lemma OneMoreWord(front: string, parts: seq<string>, word: string, all: string)
    requires Split(front, ' ') == parts && ' ' !in word && all == front + (" " + word)
    ensures Split(all, ' ') == parts + [word]
  {
    assert all == front + [' '] + word;
    SplitLast(front, word, ' ');
  }

  lemma {:induction false} OptionsSplit(before: string, parts: seq<string>, options: seq<string>)
    requires Split(before, ' ') == parts && CleanOptions(options)
    ensures Split(before + OptionsText(options), ' ') == parts + OptionKeys(options)
  {
    if options == [] {
      assert before + OptionsText(options) == before && parts + OptionKeys(options) == parts;
    } else {
      var n := |options| - 1;
      var text, keys, key := OptionsText(options[..n]), OptionKeys(options[..n]), OptionKey(options[n]);
      OptionsSplit(before, parts, options[..n]);
      LastOption(options);
      ConcatAssociative(before, text, " " + key);
      OneMoreWord(before + text, parts + keys, key, before + OptionsText(options));
      ConcatAssociative(parts, keys, [key]);
    }
  }

  /** Options are keys without value. */
  function WithOptions(obj: map<string, string>, options: seq<string>): map<string, string> {
    if options == [] then obj
    else WithOptions(obj, options[..|options| - 1])[OptionKey(options[|options| - 1]) := ""]
  }

  lemma WordField(obj: map<string, string>, word: string)
    requires '=' !in word
    ensures AddField(obj, word) == obj[word := ""]
  {}

  lemma {:induction false} OptionFields(kvs: seq<string>, options: seq<string>)
    requires CleanOptions(options)
    ensures Fields(kvs + OptionKeys(options)) == WithOptions(Fields(kvs), options)
  {
    if options == [] {
      assert kvs + OptionKeys(options) == kvs;
    } else {
      var n := |options| - 1;
      OptionFields(kvs, options[..n]);
      LastOption(options);
      ConcatAssociative(kvs, OptionKeys(options[..n]), [OptionKey(options[n])]);
      LastField(kvs + OptionKeys(options[..n]), OptionKey(options[n]));
      WordField(WithOptions(Fields(kvs), options[..n]), OptionKey(options[n]));
    }
  }

  /** With options too, parsing recovers the command, the keys with their values, and each option
      as a key with a dash and without value. */
  lemma OptionsRoundTrip(cmd: string, ps: seq<Parameter>, options: seq<string>)
    requires Clean(cmd) && SingleValued(ps) && CleanOptions(options)
    ensures var line := Command(cmd, ps, options);
      && line != "" && line[|line| - 1] == '\n'
      && Item(line[..|line| - 1]) == WithOptions(Expected(cmd, ps), options)
  {
    var line := Command(cmd, ps, options);
    assert line[..|line| - 1] == cmd + ParametersText(ps) + OptionsText(options);
    CommandSplits(cmd, ps);
    OptionsSplit(cmd + ParametersText(ps), [cmd] + FieldTexts(ps), options);
    OptionFields([cmd] + FieldTexts(ps), options);
    FieldsRecovered(cmd, ps);
  }

  /** One item for each value. */
  function ValueItems(key: string, values: seq<string>): seq<map<string, string>> {
    if values == [] then []
    else ValueItems(key, values[..|values| - 1]) + [map[key := Escape(values[|values| - 1])]]
  }

  lemma OneValueItem(key: string, value: string)
    requires Clean(key) && '|' !in key
    ensures Item(key + "=" + Escape(value)) == map[key := Escape(value)] && '|' !in key + "=" + Escape(value)
  {
    EscapeHasNoSeparators(value);
    var kv := key + "=" + Escape(value);
    assert ' ' !in kv && Split(kv, ' ') == [kv];
    FieldRecovered(map[], Parameter(key, [value]));
    assert [kv][..0] == [] && Fields([kv]) == AddField(map[], kv);
  }

  lemma ItemsStep(parts: seq<string>, part: string)
    ensures Items(parts + [part]) == Items(parts) + [Item(part)]
  {}

  lemma OneMoreValue(front: string, items: seq<map<string, string>>, kv: string, all: string)
    requires Items(Split(front, '|')) == items && '|' !in kv && all == front + "|" + kv
    ensures Items(Split(all, '|')) == items + [Item(kv)]
  {
    assert all == front + ['|'] + kv;
    SplitLast(front, kv, '|');
    ItemsStep(Split(front, '|'), kv);
  }

  lemma OneText(front: string, key: string, code: string)
    ensures front + key + "=" + code == front + (key + "=" + code)
  {}

  lemma LastValue(key: string, values: seq<string>)
    requires values != []
    ensures var n, kv := |values| - 1, key + "=" + Escape(values[|values| - 1]);
      ValuesText(key, values) == if n == 0 then kv else ValuesText(key, values[..n]) + "|" + kv
  {
    var n := |values| - 1;
    var front := ValuesText(key, values[..n]) + (if n > 0 then "|" else "");
    var code := Escape(values[n]);
    assert ValuesText(key, values) == front + key + "=" + code;
    OneText(front, key, code);
    if n == 0 {
      assert front == "" && front + (key + "=" + code) == key + "=" + code;
    }
  }

  lemma FirstValue(kv: string)
    requires '|' !in kv
    ensures Items(Split(kv, '|')) == [Item(kv)]
  {
    assert Split(kv, '|') == [kv];
  }

  /** The list parser takes the values of one key apart again: one item for each, in order. */
  lemma {:induction false} ValuesRoundTrip(key: string, values: seq<string>)
    requires Clean(key) && '|' !in key && values != []
    ensures Items(Split(ValuesText(key, values), '|')) == ValueItems(key, values)
  {
    var n := |values| - 1;
    var kv := key + "=" + Escape(values[n]);
    OneValueItem(key, values[n]);
    LastValue(key, values);
    if n == 0 {
      FirstValue(kv);
      assert ValueItems(key, values[..0]) == [];
    } else {
      ValuesRoundTrip(key, values[..n]);
      OneMoreValue(ValuesText(key, values[..n]), ValueItems(key, values[..n]), kv, ValuesText(key, values));
    }
  }

  // ---------------------------------------------------------------- the list parser on one command

  /** With names and keys free of bars too, the list parser finds that one item. */
  lemma QueryListRoundTrip(cmd: string, ps: seq<Parameter>)
    requires Clean(cmd) && SingleValued(ps) && '|' !in cmd
    requires forall i :: 0 <= i < |ps| ==> '|' !in ps[i].key
    ensures Items(Split(cmd + ParametersText(ps), '|')) == [Expected(cmd, ps)]
  {
    NoBars(ps);
    NoneIn(cmd, ParametersText(ps), '|');
    CommandSplits(cmd, ps);
    FieldsRecovered(cmd, ps);
    assert Split(cmd + ParametersText(ps), '|') == [cmd + ParametersText(ps)];
  }

  lemma {:induction false} NoBars(ps: seq<Parameter>)
    requires SingleValued(ps)
    requires forall i :: 0 <= i < |ps| ==> '|' !in ps[i].key
    ensures '|' !in ParametersText(ps)
  {
    if ps != [] {
      var n := |ps| - 1;
      NoBars(ps[..n]);
      SingleValueText(ps[n]);
      EscapeHasNoSeparators(ps[n].values[0]);
    }
  }
}
