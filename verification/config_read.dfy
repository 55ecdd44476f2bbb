/** The written lines read as settings: each section's lines say the settings they were written for. */
module ConfigRead {
  import opened Text
  import opened ConfigEditor
  import opened ConfigText
  import opened ConfigSections

  // ---- a line as an entry -----------------------------------------------------------------

  /** A line of a section: a key and its value, an item of a list, or nothing. */
  datatype Entry = Key(depth: nat, key: string, value: string) | Item(depth: nat, text: string) | Nothing

  function EntryOf(line: string): Entry {
    var t := TrimSpace(line);
    var n := Run(t, IsNoColon);
    if t == "" || t[0] == '#' then Nothing
    else if "- " <= t then Item(Indent(line), t[2..])
    else if n < |t| then Key(Indent(line), t[..n], TrimSpace(t[n + 1..]))
    else Nothing
  }

  function Entries(lines: seq<string>): seq<Entry> {
    if lines == [] then [] else [EntryOf(lines[0])] + Entries(lines[1..])
  }

  lemma {:induction false} EntriesConcat(a: seq<string>, b: seq<string>)
    ensures Entries(a + b) == Entries(a) + Entries(b)
  {
    hide EntryOf;
    if a == [] {
      NoMore(b);
      NoMore(Entries(b));
    } else {
      assert (a + b)[1..] == a[1..] + b;
      EntriesConcat(a[1..], b);
      Assoc([EntryOf(a[0])], Entries(a[1..]), Entries(b));
    }
  }

  lemma EntriesOne(line: string)
    ensures Entries([line]) == [EntryOf(line)]
  {
    hide EntryOf;
    assert [line][1..] == [];
  }

  /** How scalars are read. */
  datatype Reader = Reader(unquote: string -> Option<string>, integer: string -> Option<int>, decimal: string -> Option<real>)

  /** One value on one line. */
  predicate Scalar(s: string) {
    s != "" && Trimmed(s) && OneLine(s)
  }

  /** What the formats write is a scalar, and reads back. */
  ghost predicate Inverts(f: Formats, r: Reader) {
    && (forall s: string :: Scalar(f.quote(s)) && r.unquote(f.quote(s)) == Some(s))
    && (forall n: int :: Scalar(f.integer(n)) && r.integer(f.integer(n)) == Some(n))
    && (forall x: real :: Scalar(f.decimal(x)) && r.decimal(f.decimal(x)) == Some(x))
  }

  // ---- what a written line is read as -------------------------------------------------------

  lemma TrimOfLine(indent: nat, text: string)
    requires text != "" && Trimmed(text)
    ensures TrimSpace(LineOf(indent, text)) == text && Indent(LineOf(indent, text)) == indent
  {
    assert (text + "\n")[0] == text[0];
    RunOfConcat(Spaces(indent), text + "\n", IsSpace);
    RunOfConcat(Spaces(indent), text + "\n", IsOnlySpace);
    var s := text + "\n";
    assert s[|text| - 1] == text[|text| - 1];
    KeptIs(s, IsSpace, |text|);
    assert s[..|text|] == text;
  }

  lemma ItemEntry(indent: nat, text: string)
    requires Scalar(text)
    ensures EntryOf(LineOf(indent, "- " + text)) == Item(indent, text)
  {
    var t := "- " + text;
    assert t[0] == '-' && t[|t| - 1] == text[|text| - 1] && t[2..] == text && t[..2] == "- ";
    TrimOfLine(indent, t);
    hide TrimSpace, LineOf, Indent, Run;
  }

  /** The name of a key, as it opens a line. */
  predicate KeyName(key: string) {
    key != "" && Trimmed(key) && ':' !in key && key[0] != '#' && key[0] != '-'
  }

  /** What stands behind the colon says this value. */
  predicate Says(tail: string, value: string) {
    (tail == "" && value == "") || (tail == " " + value && Scalar(value))
  }

  lemma TailIs(tail: string, value: string)
    requires Says(tail, value)
    ensures TrimSpace(tail) == value
  {
    if tail != "" {
      RunIs(tail, IsSpace, 1);
      assert tail[1..] == value;
      RunIs(value, IsSpace, 0);
      KeptIs(value, IsSpace, |value|);
      assert value[..|value|] == value;
    }
  }

  lemma {:induction false} ColonEnds(key: string, tail: string)
    requires ':' !in key
    ensures var t := key + (":" + tail); Run(t, IsNoColon) == |key| && t[..|key|] == key && t[|key| + 1..] == tail && |key| < |t|
  {
    assert (":" + tail)[0] == ':';
    forall i | 0 <= i < |key| ensures IsNoColon(key[i]) { assert key[i] in key; }
    RunOfConcat(key, ":" + tail, IsNoColon);
  }

  lemma KeyTrimmed(key: string, tail: string, value: string)
    requires KeyName(key) && Says(tail, value)
    ensures var t := key + (":" + tail); t != "" && Trimmed(t) && t[0] != '#' && !("- " <= t)
  {
    var t := key + (":" + tail);
    assert t[0] == key[0];
    assert t[|t| - 1] == if tail == "" then ':' else value[|value| - 1];
  }

  lemma KeyEntry(indent: nat, key: string, tail: string, value: string)
    requires KeyName(key) && Says(tail, value)
    ensures EntryOf(LineOf(indent, key + (":" + tail))) == Key(indent, key, value)
  {
    var t := key + (":" + tail);
    KeyTrimmed(key, tail, value);
    ColonEnds(key, tail);
    TailIs(tail, value);
    TrimOfLine(indent, t);
    hide TrimSpace, LineOf, Indent, Run, Says, KeyName, Trimmed;
  }

  lemma NothingSays()
    ensures Says("", "")
  {
  }

  lemma ValueSays(value: string)
    requires Scalar(value)
    ensures Says(" " + value, value)
  {
  }

  // ---- lists of items ---------------------------------------------------------------------------

  /** The quoted items at a depth, and nothing else. */
  function ReadItems(r: Reader, depth: nat, es: seq<Entry>): Option<seq<string>> {
    if es == [] then Some([])
    else if !es[0].Item? || es[0].depth != depth then None
    else
      var first, rest := r.unquote(es[0].text), ReadItems(r, depth, es[1..]);
      if first.None? || rest.None? then None else Some([first.value] + rest.value)
  }

  lemma {:induction false} ItemsRead(f: Formats, r: Reader, indent: nat, items: seq<string>)
    requires Inverts(f, r)
    ensures ReadItems(r, indent, Entries(ItemLines(f, indent, items))) == Some(items)
  {
    if items != [] {
      var lines := ItemLines(f, indent, items);
      assert lines[0] == ItemLine(f, indent, items[0]) && lines[1..] == ItemLines(f, indent, items[1..]);
      QuoteReads(f, r, items[0]);
      ItemEntry(indent, f.quote(items[0]));
      ItemsRead(f, r, indent, items[1..]);
      HeadTail(items);
      hide EntryOf, LineOf, Inverts, Scalar, ItemLines;
      var es := Entries(lines);
      assert es[0] == Item(indent, f.quote(items[0])) && es[1..] == Entries(lines[1..]);
    }
  }

  lemma QuoteReads(f: Formats, r: Reader, s: string)
    requires Inverts(f, r)
    ensures Scalar(f.quote(s)) && r.unquote(f.quote(s)) == Some(s)
  {
    hide Scalar;
  }

  lemma NumberReads(f: Formats, r: Reader, n: int, x: real)
    requires Inverts(f, r)
    ensures Scalar(f.integer(n)) && r.integer(f.integer(n)) == Some(n) && Scalar(f.decimal(x)) && r.decimal(f.decimal(x)) == Some(x)
  {
    hide Scalar;
  }

  /** A list under a key: `[]` and nothing below, or its items. */
  function ReadList(r: Reader, value: string, depth: nat, es: seq<Entry>): Option<seq<string>> {
    if value == "[]" then (if es == [] then Some([]) else None)
    else if value != "" then None
    else ReadItems(r, depth, es)
  }

  lemma ListReads(f: Formats, r: Reader, indent: nat, items: seq<string>)
    requires Inverts(f, r)
    ensures ReadList(r, if items == [] then "[]" else "", indent, Entries(ItemLines(f, indent, items))) == Some(items)
  {
    hide *;
    ItemsRead(f, r, indent, items);
    NoItems(f, indent);
    ListIs(r, items == [], indent, Entries(ItemLines(f, indent, items)));
  }

  lemma NoItems(f: Formats, indent: nat)
    ensures Entries(ItemLines(f, indent, [])) == []
  {
  }

  lemma ListIs(r: Reader, empty: bool, depth: nat, es: seq<Entry>)
    requires empty ==> es == []
    ensures ReadList(r, if empty then "[]" else "", depth, es) == if empty then Some([]) else ReadItems(r, depth, es)
  {
    hide ReadItems;
  }

  // ---- the upstream proxy --------------------------------------------------------------------------

  function ReadUpstream(r: Reader, depth: nat, es: seq<Entry>): Option<Upstream> {
    if |es| < 3 || !es[0].Key? || !es[1].Key? || !es[2].Key? || es[0].depth != depth || es[1].depth != depth || es[2].depth != depth then None
    else if es[0].key != "output_proxy_uri" || es[1].key != WINDOWS_KEY || es[2].key != "no_proxy" then None
    else if es[1].value != "true" && es[1].value != "false" then None
    else
      var uri := if es[0].value == "" then Some("") else r.unquote(es[0].value);
      var hosts := ReadList(r, es[2].value, depth + 2, es[3..]);
      if uri.None? || hosts.None? then None else Some(Upstream(uri.value, es[1].value == "true", hosts.value))
  }

  /** Three lines and a list, read one by one. */
  lemma ThreeAndMore(a: string, b: string, c: string, more: seq<string>)
    ensures var es := Entries([a, b, c] + more);
      |es| >= 3 && es[0] == EntryOf(a) && es[1] == EntryOf(b) && es[2] == EntryOf(c) && es[3..] == Entries(more)
  {
    EntriesConcat([a, b, c], more);
    assert [a, b, c] == [a] + ([b] + [c]);
    EntriesConcat([a], [b] + [c]);
    EntriesConcat([b], [c]);
    EntriesOne(a);
    EntriesOne(b);
    EntriesOne(c);
    hide Entries, EntryOf;
  }

  lemma UriReads(f: Formats, r: Reader, indent: nat, uri: string)
    requires Inverts(f, r)
    ensures EntryOf(UriLine(f, indent, uri)) == Key(indent, "output_proxy_uri", if uri == "" then "" else f.quote(uri))
    ensures Scalar(f.quote(uri)) && r.unquote(f.quote(uri)) == Some(uri)
  {
    var key := "output_proxy_uri";
    assert KeyName(key);
    QuoteReads(f, r, uri);
    NothingSays();
    ValueSays(f.quote(uri));
    var tail := if uri == "" then "" else " " + f.quote(uri);
    hide EntryOf, LineOf, Inverts, Scalar, KeyName, Says;
    assert "output_proxy_uri:" + tail == key + (":" + tail);
    KeyEntry(indent, key, tail, if uri == "" then "" else f.quote(uri));
  }

  lemma WindowsKeyName()
    ensures KeyName(WINDOWS_KEY)
  {
    var a, b := "add_windows_authentication", "_to_output_proxy";
    assert ':' !in a && ':' !in b && !IsSpace(a[0]) && a[0] != '#' && a[0] != '-' && !IsSpace(b[15]);
    assert (a + b)[0] == a[0] && (a + b)[41] == b[15];
  }

  lemma WindowsReads(indent: nat, on: bool)
    ensures EntryOf(WindowsLine(indent, on)) == Key(indent, WINDOWS_KEY, if on then "true" else "false")
  {
    WindowsKeyName();
    assert Scalar("true") && Scalar("false");
    var value := if on then "true" else "false";
    ValueSays(value);
    hide EntryOf, LineOf, KeyName, Says, Scalar;
    assert " true" == " " + "true" && " false" == " " + "false";
    Assoc(WINDOWS_KEY, ":", " " + value);
    KeyEntry(indent, WINDOWS_KEY, " " + value, value);
  }

  /** A key whose list follows. */
  lemma ListKeyReads(indent: nat, key: string, lead: string, empty: bool)
    requires KeyName(key) && lead == key + ":"
    ensures EntryOf(LineOf(indent, lead + if empty then " []" else "")) == Key(indent, key, if empty then "[]" else "")
  {
    assert Scalar("[]") && " []" == " " + "[]";
    ValueSays("[]");
    NothingSays();
    hide EntryOf, LineOf, KeyName, Says, Scalar;
    Assoc(key, ":", if empty then " []" else "");
    KeyEntry(indent, key, if empty then " []" else "", if empty then "[]" else "");
  }

  lemma {:induction false} UpstreamEntries(f: Formats, r: Reader, u: Upstream, indent: nat)
    requires Inverts(f, r)
    ensures var es, uri := Entries(UpstreamLines(f, u, indent)), TrimSpace(u.uri);
      && |es| >= 3 && es[0] == Key(indent, "output_proxy_uri", if uri == "" then "" else f.quote(uri))
      && es[1] == Key(indent, WINDOWS_KEY, if u.windowsAuthentication then "true" else "false")
      && es[2] == Key(indent, "no_proxy", if u.noProxy == [] then "[]" else "")
      && es[3..] == Entries(ItemLines(f, indent + 2, u.noProxy))
  {
    assert KeyName("no_proxy") && "no_proxy:" == "no_proxy" + ":";
    hide EntryOf, LineOf, Inverts, Scalar, KeyName, ItemLines, Entries;
    UriReads(f, r, indent, TrimSpace(u.uri));
    WindowsReads(indent, u.windowsAuthentication);
    ListKeyReads(indent, "no_proxy", "no_proxy:", u.noProxy == []);
    hide UriLine, WindowsLine;
    ThreeAndMore(UriLine(f, indent, TrimSpace(u.uri)), WindowsLine(indent, u.windowsAuthentication), NoProxyLine(indent, u.noProxy == []),
                 ItemLines(f, indent + 2, u.noProxy));
  }

  /** The lines written for upstream settings read back as these settings, the URI trimmed. */
  lemma UpstreamReadsBack(f: Formats, r: Reader, u: Upstream, indent: nat)
    requires Inverts(f, r)
    ensures ReadUpstream(r, indent, Entries(UpstreamLines(f, u, indent))) == Some(u.(uri := TrimSpace(u.uri)))
  {
    hide *;
    UpstreamEntries(f, r, u, indent);
    ListReads(f, r, indent + 2, u.noProxy);
    QuoteReads(f, r, TrimSpace(u.uri));
    ScalarIsSome(f.quote(TrimSpace(u.uri)));
    UpstreamOf(r, indent, Entries(UpstreamLines(f, u, indent)), TrimSpace(u.uri), f.quote(TrimSpace(u.uri)), u.windowsAuthentication,
               if u.noProxy == [] then "[]" else "", u.noProxy);
  }

  lemma UpstreamOf(r: Reader, depth: nat, es: seq<Entry>, uri: string, quoted: string, on: bool, list: string, hosts: seq<string>)
    requires |es| >= 3 && es[0] == Key(depth, "output_proxy_uri", if uri == "" then "" else quoted)
    requires es[1] == Key(depth, WINDOWS_KEY, if on then "true" else "false") && es[2] == Key(depth, "no_proxy", list)
    requires quoted != "" && r.unquote(quoted) == Some(uri) && ReadList(r, list, depth + 2, es[3..]) == Some(hosts)
    ensures ReadUpstream(r, depth, es) == Some(Upstream(uri, on, hosts))
  {
    hide ReadList;
    assert |"true"| == 4 && |"false"| == 5;
  }

  lemma ScalarIsSome(s: string)
    requires Scalar(s)
    ensures s != ""
  {
  }

  // ---- access control ----------------------------------------------------------------------------------

  function ReadAccess(r: Reader, depth: nat, es: seq<Entry>): Option<AccessControl> {
    if |es| < 3 || es[0] != Key(depth, "access_control", "") || !es[1].Key? || !es[2].Key? then None
    else if es[1].depth != depth + 2 || es[2].depth != depth + 2 || es[1].key != "mode" || es[2].key != "networks" then None
    else
      var mode, networks := r.unquote(es[1].value), ReadList(r, es[2].value, depth + 4, es[3..]);
      if mode.None? || networks.None? then None else Some(AccessControl(mode.value, networks.value))
  }

  lemma ModeReads(f: Formats, r: Reader, indent: nat, mode: string)
    requires Inverts(f, r)
    ensures EntryOf(ModeLine(f, indent, mode)) == Key(indent, "mode", f.quote(mode)) && r.unquote(f.quote(mode)) == Some(mode)
  {
    assert KeyName("mode");
    QuoteReads(f, r, mode);
    ValueSays(f.quote(mode));
    hide EntryOf, LineOf, Inverts, Scalar, KeyName, Says;
    assert "mode: " + f.quote(mode) == "mode" + (":" + (" " + f.quote(mode)));
    KeyEntry(indent, "mode", " " + f.quote(mode), f.quote(mode));
  }

  lemma AccessReads(indent: nat)
    ensures EntryOf(AccessLine(indent)) == Key(indent, "access_control", "")
  {
    assert KeyName("access_control") && "access_control:" == "access_control" + (":" + "");
    NothingSays();
    hide EntryOf, LineOf, KeyName, Says;
    KeyEntry(indent, "access_control", "", "");
  }

  /** The lines written for access control read back as it. */
  lemma AccessReadsBack(f: Formats, r: Reader, c: AccessControl, indent: nat)
    requires Inverts(f, r)
    ensures ReadAccess(r, indent, Entries(AccessLines(f, c, indent))) == Some(c)
  {
    assert KeyName("networks") && "networks:" == "networks" + ":";
    hide EntryOf, LineOf, Inverts, Scalar, KeyName, ItemLines, Entries, ReadList, Says;
    AccessReads(indent);
    ModeReads(f, r, indent + 2, c.mode);
    ListKeyReads(indent + 2, "networks", "networks:", c.networks == []);
    ListReads(f, r, indent + 4, c.networks);
    hide AccessLine, ModeLine;
    ThreeAndMore(AccessLine(indent), ModeLine(f, indent + 2, c.mode), NetworksLine(indent + 2, c.networks == []), ItemLines(f, indent + 4, c.networks));
  }

  // ---- capture rules ---------------------------------------------------------------------------------------

  /** A limit under a rule's name. */
  function ReadSize(r: Reader, name: string, e: Entry): Option<Rule>
    requires e.Key?
  {
    if e.key == "max_size_bytes" then (match r.integer(e.value) case None => None case Some(n) => Some(Rule(name, Some(n), None, None)))
    else if e.key == "max_size_kb" then (match r.decimal(e.value) case None => None case Some(x) => Some(Rule(name, None, Some(x), None)))
    else if e.key == "max_size_mb" then (match r.decimal(e.value) case None => None case Some(x) => Some(Rule(name, None, None, Some(x))))
    else None
  }

  function ReadName(r: Reader, depth: nat, e: Entry): Option<string> {
    if e.Item? && e.depth == depth && "name: " <= e.text then r.unquote(e.text[6..]) else None
  }

  /** Rules: a name each, and at most one limit below it. */
  function ReadRules(r: Reader, depth: nat, es: seq<Entry>): Option<seq<Rule>>
    decreases |es|
  {
    if es == [] then Some([])
    else
      var name := ReadName(r, depth, es[0]);
      if name.None? then None
      else if |es| > 1 && es[1].Key? then
        var rule, rest := ReadSize(r, name.value, es[1]), ReadRules(r, depth, es[2..]);
        if es[1].depth != depth + 2 || rule.None? || rest.None? then None else Some([rule.value] + rest.value)
      else
        var rest := ReadRules(r, depth, es[1..]);
        if rest.None? then None else Some([Rule(name.value, None, None, None)] + rest.value)
  }

  function ReadCapture(r: Reader, depth: nat, es: seq<Entry>): Option<CaptureRules> {
    var default := es != [] && es[0].Key? && es[0].depth == depth && es[0].key == "default_max_bytes";
    var rest := if default then es[1..] else es;
    if rest == [] || rest[0] != Key(depth, "mime_types", "") then None
    else
      var rules := ReadRules(r, depth + 2, rest[1..]);
      if rules.None? then None
      else if !default then Some(CaptureRules(None, rules.value))
      else match r.integer(es[0].value)
        case None => None
        case Some(n) => Some(CaptureRules(Some(n), rules.value))
  }

  /** A rule's one limit: the bytes if they are set, else the kilobytes, else the megabytes. */
  function OneSize(rule: Rule): Rule {
    if rule.bytes.Some? then rule.(kb := None, mb := None) else if rule.kb.Some? then rule.(mb := None) else rule
  }

  function OneSizeEach(rules: seq<Rule>): seq<Rule> {
    if rules == [] then [] else [OneSize(rules[0])] + OneSizeEach(rules[1..])
  }

  lemma NameReads(f: Formats, r: Reader, indent: nat, name: string)
    requires Inverts(f, r)
    ensures EntryOf(NameLine(f, indent, name)).Item? && ReadName(r, indent, EntryOf(NameLine(f, indent, name))) == Some(name)
  {
    QuoteReads(f, r, name);
    var text := "name: " + f.quote(name);
    NamedScalar(f.quote(name));
    hide EntryOf, LineOf, Inverts, Scalar;
    assert "- name: " + f.quote(name) == "- " + text;
    ItemEntry(indent, text);
    assert text[..6] == "name: " && text[6..] == f.quote(name);
  }

  lemma NamedScalar(q: string)
    requires Scalar(q)
    ensures Scalar("name: " + q)
  {
    var text := "name: " + q;
    assert text[0] == 'n' && text[|text| - 1] == q[|q| - 1];
  }

  lemma SizeReads(indent: nat, key: string, lead: string, value: string)
    requires (key == "max_size_bytes" && lead == "max_size_bytes: ") || (key == "max_size_kb" && lead == "max_size_kb: ") || (key == "max_size_mb" && lead == "max_size_mb: ")
    requires Scalar(value)
    ensures EntryOf(LineOf(indent, lead + value)) == Key(indent, key, value)
  {
    assert KeyName(key);
    ValueSays(value);
    assert lead == key + (":" + " ");
    hide EntryOf, LineOf, KeyName, Says, Scalar;
    Assoc(key, ":" + " ", value);
    Assoc(":", " ", value);
    KeyEntry(indent, key, " " + value, value);
  }

  lemma SizeLineReads(f: Formats, r: Reader, indent: nat, rule: Rule)
    requires Inverts(f, r)
    ensures var ls := SizeLine(f, indent, rule);
      && (ls == [] ==> OneSize(rule) == Rule(rule.name, None, None, None))
      && (ls != [] ==> |ls| == 1 && EntryOf(ls[0]).Key? && EntryOf(ls[0]).depth == indent && ReadSize(r, rule.name, EntryOf(ls[0])) == Some(OneSize(rule)))
  {
    hide EntryOf, LineOf, Inverts, Scalar;
    if rule.bytes.Some? {
      NumberReads(f, r, rule.bytes.value, 0.0);
      SizeReads(indent, "max_size_bytes", "max_size_bytes: ", f.integer(rule.bytes.value));
    } else if rule.kb.Some? {
      NumberReads(f, r, 0, rule.kb.value);
      SizeReads(indent, "max_size_kb", "max_size_kb: ", f.decimal(rule.kb.value));
    } else if rule.mb.Some? {
      NumberReads(f, r, 0, rule.mb.value);
      SizeReads(indent, "max_size_mb", "max_size_mb: ", f.decimal(rule.mb.value));
    }
  }

  lemma NoKeyFirst(f: Formats, r: Reader, indent: nat, rules: seq<Rule>)
    requires Inverts(f, r)
    ensures var es := Entries(RuleLines(f, indent, rules)); es != [] ==> !es[0].Key?
  {
    hide EntryOf, NameLine, SizeLine, Inverts;
    if rules != [] {
      NameReads(f, r, indent, rules[0].name);
      var more := SizeLine(f, indent + 2, rules[0]) + RuleLines(f, indent, rules[1..]);
      EntriesConcat([NameLine(f, indent, rules[0].name)], more);
      EntriesOne(NameLine(f, indent, rules[0].name));
    }
  }

  lemma RuleEntries(f: Formats, indent: nat, rules: seq<Rule>)
    requires rules != []
    ensures Entries(RuleLines(f, indent, rules)) ==
      [EntryOf(NameLine(f, indent, rules[0].name))] + (Entries(SizeLine(f, indent + 2, rules[0])) + Entries(RuleLines(f, indent, rules[1..])))
  {
    var name, size, more := NameLine(f, indent, rules[0].name), SizeLine(f, indent + 2, rules[0]), RuleLines(f, indent, rules[1..]);
    assert RuleLines(f, indent, rules) == [name] + (size + more);
    hide *;
    EntriesConcat([name], size + more);
    EntriesConcat(size, more);
    EntriesOne(name);
  }

  lemma ReadRulesStep(r: Reader, depth: nat, first: Entry, size: seq<Entry>, more: seq<Entry>, name: string, rule: Rule, rest: seq<Rule>)
    requires ReadName(r, depth, first) == Some(name) && ReadRules(r, depth, more) == Some(rest) && (more != [] ==> !more[0].Key?)
    requires if size == [] then rule == Rule(name, None, None, None)
      else |size| == 1 && size[0].Key? && size[0].depth == depth + 2 && ReadSize(r, name, size[0]) == Some(rule)
    ensures ReadRules(r, depth, [first] + (size + more)) == Some([rule] + rest)
  {
    var es := [first] + (size + more);
    hide ReadName, ReadSize;
    if size == [] {
      assert es[1..] == more && (|es| > 1 ==> es[1] == more[0]);
    } else {
      assert es[2..] == more && es[1] == size[0];
    }
  }

  lemma {:induction false} RulesRead(f: Formats, r: Reader, indent: nat, rules: seq<Rule>)
    requires Inverts(f, r)
    ensures ReadRules(r, indent, Entries(RuleLines(f, indent, rules))) == Some(OneSizeEach(rules))
  {
    if rules == [] {
      assert Entries(RuleLines(f, indent, rules)) == [];
    } else {
      var name, size, more := NameLine(f, indent, rules[0].name), SizeLine(f, indent + 2, rules[0]), RuleLines(f, indent, rules[1..]);
      assert OneSizeEach(rules) == [OneSize(rules[0])] + OneSizeEach(rules[1..]);
      assert size == [] ==> Entries(size) == [];
      hide *;
      RulesRead(f, r, indent, rules[1..]);
      NameReads(f, r, indent, rules[0].name);
      SizeLineReads(f, r, indent + 2, rules[0]);
      NoKeyFirst(f, r, indent, rules[1..]);
      RuleEntries(f, indent, rules);
      if size != [] {
        JustOne(size);
        EntriesOne(size[0]);
      }
      ReadRulesStep(r, indent, EntryOf(name), Entries(size), Entries(more), rules[0].name, OneSize(rules[0]), OneSizeEach(rules[1..]));
    }
  }

  lemma DefaultReads(f: Formats, r: Reader, indent: nat, n: int)
    requires Inverts(f, r)
    ensures EntryOf(DefaultLine(f, indent, n)) == Key(indent, "default_max_bytes", f.integer(n)) && r.integer(f.integer(n)) == Some(n)
  {
    assert KeyName("default_max_bytes") && "default_max_bytes:" == "default_max_bytes" + ":";
    NumberReads(f, r, n, 0.0);
    ValueSays(f.integer(n));
    hide EntryOf, LineOf, Inverts, Scalar, KeyName, Says;
    Assoc("default_max_bytes", ":", " " + f.integer(n));
    KeyEntry(indent, "default_max_bytes", " " + f.integer(n), f.integer(n));
  }

  lemma TypesReads(indent: nat)
    ensures EntryOf(TypesLine(indent)) == Key(indent, "mime_types", "")
  {
    assert KeyName("mime_types") && "mime_types:" == "mime_types" + (":" + "");
    NothingSays();
    hide EntryOf, LineOf, KeyName, Says;
    KeyEntry(indent, "mime_types", "", "");
  }

  lemma CaptureEntries(f: Formats, c: CaptureRules, indent: nat)
    ensures Entries(CaptureLines(f, c, indent)) ==
      (if c.defaultMaxBytes.Some? then [EntryOf(DefaultLine(f, indent, c.defaultMaxBytes.value))] else [])
      + ([EntryOf(TypesLine(indent))] + Entries(RuleLines(f, indent + 2, c.mimeTypes)))
  {
    var first := if c.defaultMaxBytes.Some? then [DefaultLine(f, indent, c.defaultMaxBytes.value)] else [];
    assert Entries([]) == [];
    hide EntryOf, Entries, DefaultLine, TypesLine, RuleLines;
    EntriesConcat(first, [TypesLine(indent)] + RuleLines(f, indent + 2, c.mimeTypes));
    EntriesConcat([TypesLine(indent)], RuleLines(f, indent + 2, c.mimeTypes));
    EntriesOne(TypesLine(indent));
    if c.defaultMaxBytes.Some? { EntriesOne(DefaultLine(f, indent, c.defaultMaxBytes.value)); }
  }

  /** The lines written for capture rules read back as them, each rule with the one limit that counts. */
  lemma CaptureReadsBack(f: Formats, r: Reader, c: CaptureRules, indent: nat)
    requires Inverts(f, r)
    ensures ReadCapture(r, indent, Entries(CaptureLines(f, c, indent))) == Some(c.(mimeTypes := OneSizeEach(c.mimeTypes)))
  {
    var es, rules := Entries(CaptureLines(f, c, indent)), Entries(RuleLines(f, indent + 2, c.mimeTypes));
    CaptureEntries(f, c, indent);
    TypesReads(indent);
    RulesRead(f, r, indent + 2, c.mimeTypes);
    if c.defaultMaxBytes.Some? {
      DefaultReads(f, r, indent, c.defaultMaxBytes.value);
      hide EntryOf, Entries, DefaultLine, TypesLine, RuleLines, CaptureLines, ReadRules, OneSizeEach, Inverts;
      CaptureOf(r, indent, es, Some(c.defaultMaxBytes.value), f.integer(c.defaultMaxBytes.value), rules, OneSizeEach(c.mimeTypes));
    } else {
      hide EntryOf, Entries, DefaultLine, TypesLine, RuleLines, CaptureLines, ReadRules, OneSizeEach, Inverts;
      CaptureOf(r, indent, es, None, "", rules, OneSizeEach(c.mimeTypes));
    }
  }

  lemma CaptureOf(r: Reader, depth: nat, es: seq<Entry>, default: Option<int>, text: string, more: seq<Entry>, rules: seq<Rule>)
    requires default.Some? ==> r.integer(text) == default
    requires es == (if default.Some? then [Key(depth, "default_max_bytes", text)] else []) + ([Key(depth, "mime_types", "")] + more)
    requires ReadRules(r, depth + 2, more) == Some(rules)
    ensures ReadCapture(r, depth, es) == Some(CaptureRules(default, rules))
  {
    hide ReadRules;
    var types := [Key(depth, "mime_types", "")] + more;
    assert types[0] == Key(depth, "mime_types", "") && types[1..] == more;
    assert |"mime_types"| == 10 && |"default_max_bytes"| == 17;
    if default.Some? {
      assert es[0] == Key(depth, "default_max_bytes", text) && es[1..] == types;
    } else {
      assert es == types;
    }
  }
}
