/** The settings each editor writes, and the laws for each section. */
module ConfigSections {
  import opened Text
  import opened ConfigEditor
  import opened ConfigLaws
  import opened ConfigText

  /** strconv.Quote and the number formats: what they write holds no line break. */
  datatype Formats = Formats(quote: string -> string, integer: int -> string, decimal: real -> string)

  ghost predicate FormatsOk(f: Formats) {
    && (forall s: string :: OneLine(f.quote(s)))
    && (forall n: int :: OneLine(f.integer(n)))
    && (forall x: real :: OneLine(f.decimal(x)))
  }

  datatype AccessControl = AccessControl(mode: string, networks: seq<string>)

  datatype Upstream = Upstream(uri: string, windowsAuthentication: bool, noProxy: seq<string>)

  datatype Rule = Rule(name: string, bytes: Option<int>, kb: Option<real>, mb: Option<real>)

  datatype CaptureRules = CaptureRules(defaultMaxBytes: Option<int>, mimeTypes: seq<Rule>)

  const ACCESS_KEYS: seq<string> := ["enable_remote_connection", "access_control"]
  const PROXY_ACCESS := Editor("proxy:", ACCESS_KEYS)
  const WEBUI_ACCESS := Editor("webui:", ACCESS_KEYS)
  const WINDOWS_KEY: string := "add_windows_authentication" + "_to_output_proxy"
  const UPSTREAM := Editor("proxy:", ["output_proxy_uri", WINDOWS_KEY, "no_proxy"])
  const CAPTURE := Editor("decrypt_https:", ["default_max_bytes", "mime_types"])

  /** strings.Repeat(" ", n). */
  function Spaces(n: nat): (s: string)
    ensures |s| == n && forall i :: 0 <= i < n ==> s[i] == ' '
  {
    if n == 0 then "" else " " + Spaces(n - 1)
  }

  function LineOf(indent: nat, text: string): string {
    Spaces(indent) + (text + "\n")
  }

  function ItemLine(f: Formats, indent: nat, item: string): string { LineOf(indent, "- " + f.quote(item)) }

  function ItemLines(f: Formats, indent: nat, items: seq<string>): seq<string> {
    if items == [] then [] else [ItemLine(f, indent, items[0])] + ItemLines(f, indent, items[1..])
  }

  function AccessLine(indent: nat): string { LineOf(indent, "access_control:") }

  function ModeLine(f: Formats, indent: nat, mode: string): string { LineOf(indent, "mode: " + f.quote(mode)) }

  function NetworksLine(indent: nat, empty: bool): string { LineOf(indent, "networks:" + if empty then " []" else "") }

  function AccessLines(f: Formats, c: AccessControl, indent: nat): seq<string> {
    [AccessLine(indent), ModeLine(f, indent + 2, c.mode), NetworksLine(indent + 2, c.networks == [])]
    + ItemLines(f, indent + 4, c.networks)
  }

  function UriLine(f: Formats, indent: nat, uri: string): string {
    LineOf(indent, "output_proxy_uri:" + if uri == "" then "" else " " + f.quote(uri))
  }

  function WindowsLine(indent: nat, on: bool): string {
    LineOf(indent, (WINDOWS_KEY + ":") + if on then " true" else " false")
  }

  function NoProxyLine(indent: nat, empty: bool): string { LineOf(indent, "no_proxy:" + if empty then " []" else "") }

  function UpstreamLines(f: Formats, u: Upstream, indent: nat): seq<string> {
    [UriLine(f, indent, TrimSpace(u.uri)), WindowsLine(indent, u.windowsAuthentication), NoProxyLine(indent, u.noProxy == [])]
    + ItemLines(f, indent + 2, u.noProxy)
  }

  function DefaultLine(f: Formats, indent: nat, n: int): string { LineOf(indent, "default_max_bytes:" + (" " + f.integer(n))) }

  function TypesLine(indent: nat): string { LineOf(indent, "mime_types:") }

  function NameLine(f: Formats, indent: nat, name: string): string { LineOf(indent, "- name: " + f.quote(name)) }

  function SizeLine(f: Formats, indent: nat, r: Rule): seq<string> {
    if r.bytes.Some? then [LineOf(indent, "max_size_bytes: " + f.integer(r.bytes.value))]
    else if r.kb.Some? then [LineOf(indent, "max_size_kb: " + f.decimal(r.kb.value))]
    else if r.mb.Some? then [LineOf(indent, "max_size_mb: " + f.decimal(r.mb.value))]
    else []
  }

  function RuleLines(f: Formats, indent: nat, rules: seq<Rule>): seq<string> {
    if rules == [] then []
    else [NameLine(f, indent, rules[0].name)] + (SizeLine(f, indent + 2, rules[0]) + RuleLines(f, indent, rules[1..]))
  }

  function CaptureLines(f: Formats, c: CaptureRules, indent: nat): seq<string> {
    (if c.defaultMaxBytes.Some? then [DefaultLine(f, indent, c.defaultMaxBytes.value)] else [])
    + ([TypesLine(indent)] + RuleLines(f, indent + 2, c.mimeTypes))
  }

  function RenderAccess(f: Formats, c: AccessControl): nat -> seq<string> { (n: nat) => AccessLines(f, c, n) }

  function RenderUpstream(f: Formats, u: Upstream): nat -> seq<string> { (n: nat) => UpstreamLines(f, u, n) }

  function RenderCapture(f: Formats, c: CaptureRules): nat -> seq<string> { (n: nat) => CaptureLines(f, c, n) }

  // ---- rendered lines ---------------------------------------------------------------------

  /** Text that starts a line with neither a blank nor a comment mark, and holds no line break. */
  predicate LineText(text: string) {
    text != "" && !IsSpace(text[0]) && text[0] != '#' && OneLine(text)
  }

  lemma LineShape(indent: nat, text: string)
    requires LineText(text)
    ensures var l := LineOf(indent, text);
      Proper(l) && Indent(l) == indent && TrimLeft(l, IsOnlySpace) == text + "\n" && TrimLeft(l, IsSpace) == text + "\n"
  {
    var l := LineOf(indent, text);
    assert text[0] != ' ';
    assert (text + "\n")[0] == text[0];
    RunOfConcat(Spaces(indent), text + "\n", IsOnlySpace);
    RunOfConcat(Spaces(indent), text + "\n", IsSpace);
    forall i | 0 <= i < |l| - 1 ensures l[i] != '\n' {
      if i >= indent { assert l[i] == text[i - indent] && text[i - indent] in text; }
    }
  }

  lemma TrimStarts(indent: nat, text: string)
    requires LineText(text)
    ensures var t := TrimSpace(LineOf(indent, text)); t != "" && t[0] == text[0] && t <= text + "\n"
  {
    LineShape(indent, text);
    var s := text + "\n";
    assert s[0] == text[0];
    KeptPast(s, IsSpace, 0);
    hide LineOf, Proper, Indent;
  }

  /** The header is not what the text starts with. */
  predicate Unlike(header: string, text: string) {
    exists i :: 0 <= i < |header| && i < |text| && header[i] != text[i]
  }

  lemma NotThatPrefix(t: string, header: string, s: string, i: nat)
    requires t <= s && i < |header| && i < |s| && header[i] != s[i]
    ensures t != header
  {
  }

  lemma RenderedLine(ed: Editor, indent: nat, text: string)
    requires LineText(text) && Unlike(ed.header, text)
    ensures var l := LineOf(indent, text);
      Proper(l) && !Skipped(l) && !IsHeader(ed, l) && Indent(l) == indent
  {
    LineShape(indent, text);
    TrimStarts(indent, text);
    var t, s := TrimSpace(LineOf(indent, text)), text + "\n";
    var i :| 0 <= i < |ed.header| && i < |text| && ed.header[i] != text[i];
    assert s[i] == text[i];
    hide LineOf, Proper, Indent, TrimSpace;
    NotThatPrefix(t, ed.header, s, i);
  }

  /** The text of a line that opens a key. */
  predicate Opens(text: string, key: string) {
    && |key| < |text| && text[..|key|] == key && text[|key|] == ':' && ':' !in key && Trimmed(key)
  }

  lemma KeyText(text: string, key: string)
    requires LineText(text) && Opens(text, key)
    ensures Run(text + "\n", IsNoColon) == |key| && (text + "\n")[..|key|] == key
  {
    var s := text + "\n";
    forall i | 0 <= i < |key| ensures IsNoColon(s[i]) { assert s[i] == text[..|key|][i] == key[i] && key[i] in key; }
    RunIs(s, IsNoColon, |key|);
    assert s[..|key|] == key;
  }

  lemma KeyOfText(l: string, text: string, key: string)
    requires LineText(text) && Opens(text, key) && TrimLeft(l, IsOnlySpace) == text + "\n"
    ensures KeyOf(l) == Some(key)
  {
    KeyText(text, key);
    TrimSpaceOfTrimmed(key);
    hide TrimLeft, TrimSpace, Run, LineText;
  }

  lemma KeyLine(ed: Editor, parent: nat, text: string, key: string)
    requires LineText(text) && Unlike(ed.header, text) && Opens(text, key) && key in ed.keys
    ensures Removable(ed, LineOf(parent + 2, text), parent)
  {
    hide LineOf, Proper, Indent, Skipped, KeyOf, LineText, Unlike, Opens, TrimLeft, IsHeader;
    RenderedLine(ed, parent + 2, text);
    LineShape(parent + 2, text);
    KeyOfText(LineOf(parent + 2, text), text, key);
  }

  /** A line written under a section: proper, read as part of it, and at the keys' depth a replaced key. */
  predicate Fits(ed: Editor, line: string, parent: nat) {
    && Proper(line) && !Skipped(line) && !IsHeader(ed, line) && Indent(line) >= parent + 2
    && (Indent(line) == parent + 2 ==> Removable(ed, line, parent))
  }

  predicate AllFit(ed: Editor, lines: seq<string>, parent: nat) {
    forall i :: 0 <= i < |lines| ==> Fits(ed, lines[i], parent)
  }

  lemma FitConcat(ed: Editor, a: seq<string>, b: seq<string>, parent: nat)
    requires AllFit(ed, a, parent) && AllFit(ed, b, parent)
    ensures AllFit(ed, a + b, parent)
  {
    hide Fits;
  }

  lemma KeyFits(ed: Editor, parent: nat, text: string, key: string)
    requires LineText(text) && Unlike(ed.header, text) && Opens(text, key) && key in ed.keys
    ensures Fits(ed, LineOf(parent + 2, text), parent) && Removable(ed, LineOf(parent + 2, text), parent)
  {
    RenderedLine(ed, parent + 2, text);
    KeyLine(ed, parent, text, key);
    hide LineOf, Proper, Skipped, IsHeader, Indent, Removable;
  }

  lemma DeepFits(ed: Editor, parent: nat, indent: nat, text: string)
    requires LineText(text) && Unlike(ed.header, text) && indent > parent + 2
    ensures Fits(ed, LineOf(indent, text), parent)
  {
    RenderedLine(ed, indent, text);
    hide LineOf, Proper, Skipped, IsHeader, Indent, Removable;
  }

  lemma FitsIsRendered(ed: Editor, lines: seq<string>, parent: nat)
    requires AllFit(ed, lines, parent) && lines != [] && Removable(ed, lines[0], parent)
    ensures Rendered(ed, lines, parent) && AllProper(lines)
  {
    hide Proper, Skipped, IsHeader, Indent, Removable;
    forall i | 0 <= i < |lines| ensures Fits(ed, lines[i], parent) {}
  }

  /** A text made of a fixed beginning and something formatted. */
  lemma Lead(lead: string, rest: string)
    requires LineText(lead) && OneLine(rest)
    ensures LineText(lead + rest) && (forall i :: 0 <= i < |lead| ==> (lead + rest)[i] == lead[i])
  {
  }

  lemma UnlikeAt(header: string, text: string, i: nat)
    requires i < |header| && i < |text| && header[i] != text[i]
    ensures Unlike(header, text)
  {
  }

  /** The first letter, or the third, tells a line from every section's header. */
  predicate Telling(ed: Editor, lead: string) {
    && |ed.header| > 2 && lead != ""
    && (lead[0] != ed.header[0] || (|lead| > 2 && lead[2] != ed.header[2]))
  }

  lemma LeadUnlike(ed: Editor, lead: string, rest: string)
    requires Telling(ed, lead) && LineText(lead) && OneLine(rest)
    ensures LineText(lead + rest) && Unlike(ed.header, lead + rest)
  {
    Lead(lead, rest);
    UnlikeAt(ed.header, lead + rest, if lead[0] != ed.header[0] then 0 else 2);
  }

  lemma LeadOpens(key: string, lead: string, rest: string)
    requires Opens(lead, key)
    ensures Opens(lead + rest, key)
  {
    assert (lead + rest)[..|key|] == lead[..|key|];
  }

  lemma KeyLeadFits(ed: Editor, parent: nat, key: string, lead: string, rest: string)
    requires Telling(ed, lead) && LineText(lead) && OneLine(rest) && Opens(lead, key) && key in ed.keys
    ensures Fits(ed, LineOf(parent + 2, lead + rest), parent) && Removable(ed, LineOf(parent + 2, lead + rest), parent)
  {
    LeadUnlike(ed, lead, rest);
    LeadOpens(key, lead, rest);
    hide LineText, Unlike, Opens, Fits, Removable, LineOf;
    KeyFits(ed, parent, lead + rest, key);
  }

  lemma DeepLeadFits(ed: Editor, parent: nat, indent: nat, lead: string, rest: string)
    requires Telling(ed, lead) && LineText(lead) && OneLine(rest) && indent > parent + 2
    ensures Fits(ed, LineOf(indent, lead + rest), parent)
  {
    LeadUnlike(ed, lead, rest);
    hide LineText, Unlike, Fits, LineOf;
    DeepFits(ed, parent, indent, lead + rest);
  }

  predicate IsAccess(ed: Editor) {
    ed == PROXY_ACCESS || ed == WEBUI_ACCESS
  }

  predicate IsUpstream(ed: Editor) {
    ed == UPSTREAM
  }

  predicate IsCapture(ed: Editor) {
    ed == CAPTURE
  }

  lemma Quoted(f: Formats, s: string)
    requires FormatsOk(f)
    ensures OneLine(f.quote(s)) && OneLine(" " + f.quote(s))
  {
    assert OneLine(f.quote(s));
  }

  lemma Numbered(f: Formats, n: int, x: real)
    requires FormatsOk(f)
    ensures OneLine(f.integer(n)) && OneLine(" " + f.integer(n)) && OneLine(f.decimal(x))
  {
    assert OneLine(f.integer(n)) && OneLine(f.decimal(x));
  }

  lemma NothingAfter(text: string)
    ensures OneLine("") && text + "" == text
  {
  }

  lemma ItemFits(ed: Editor, f: Formats, parent: nat, indent: nat, item: string)
    requires (IsAccess(ed) || IsUpstream(ed)) && indent > parent + 2 && FormatsOk(f)
    ensures Fits(ed, ItemLine(f, indent, item), parent)
  {
    assert Telling(ed, "- ") && LineText("- ");
    hide Fits, LineOf, FormatsOk, IsAccess, IsUpstream, Telling, LineText;
    Quoted(f, item);
    DeepLeadFits(ed, parent, indent, "- ", f.quote(item));
  }

  lemma {:induction false} ItemsFit(ed: Editor, f: Formats, parent: nat, indent: nat, items: seq<string>)
    requires (IsAccess(ed) || IsUpstream(ed)) && indent > parent + 2 && FormatsOk(f)
    ensures AllFit(ed, ItemLines(f, indent, items), parent)
  {
    hide Fits, FormatsOk, ItemLine, IsAccess, IsUpstream;
    if items != [] {
      ItemsFit(ed, f, parent, indent, items[1..]);
      ItemFits(ed, f, parent, indent, items[0]);
    }
  }

  /** Lines that fit, the first of them a key, are what an editor may write. */
  lemma Writes(ed: Editor, render: nat -> seq<string>, parent: nat)
    requires var lines := render(parent + 2); AllFit(ed, lines, parent) && lines != [] && Removable(ed, lines[0], parent)
    ensures WritesLines(ed, render, parent)
  {
    hide Rendered, AllProper, Removable, AllFit;
    FitsIsRendered(ed, render(parent + 2), parent);
  }

  // ---- access control -------------------------------------------------------------------------

  lemma AccessLineFits(ed: Editor, parent: nat)
    requires IsAccess(ed)
    ensures Fits(ed, AccessLine(parent + 2), parent) && Removable(ed, AccessLine(parent + 2), parent)
  {
    var lead := "access_control:";
    assert lead[..14] == "access_control" && ACCESS_KEYS[1] == "access_control";
    assert Telling(ed, lead) && LineText(lead) && Opens(lead, "access_control");
    hide Fits, LineOf, Removable, Telling, LineText, Opens;
    NothingAfter(lead);
    KeyLeadFits(ed, parent, "access_control", lead, "");
  }

  lemma ModeLineFits(ed: Editor, f: Formats, parent: nat, indent: nat, mode: string)
    requires IsAccess(ed) && FormatsOk(f) && indent > parent + 2
    ensures Fits(ed, ModeLine(f, indent, mode), parent)
  {
    assert Telling(ed, "mode: ") && LineText("mode: ");
    hide Fits, LineOf, Telling, LineText, FormatsOk, IsAccess;
    Quoted(f, mode);
    DeepLeadFits(ed, parent, indent, "mode: ", f.quote(mode));
  }

  lemma NetworksLineFits(ed: Editor, parent: nat, indent: nat, empty: bool)
    requires IsAccess(ed) && indent > parent + 2
    ensures Fits(ed, NetworksLine(indent, empty), parent)
  {
    assert Telling(ed, "networks:") && LineText("networks:") && OneLine("") && OneLine(" []");
    hide Fits, LineOf, Telling, LineText, IsAccess;
    DeepLeadFits(ed, parent, indent, "networks:", if empty then " []" else "");
  }

  lemma AccessWrites(ed: Editor, f: Formats, c: AccessControl, parent: nat)
    requires IsAccess(ed) && FormatsOk(f)
    ensures WritesLines(ed, RenderAccess(f, c), parent)
  {
    hide Fits, FormatsOk, Removable, WritesLines, AccessLine, ModeLine, NetworksLine, ItemLines, IsAccess;
    AccessLineFits(ed, parent);
    ModeLineFits(ed, f, parent, parent + 4, c.mode);
    NetworksLineFits(ed, parent, parent + 4, c.networks == []);
    ItemsFit(ed, f, parent, parent + 6, c.networks);
    assert AllFit(ed, RenderAccess(f, c)(parent + 2), parent);
    hide AllFit;
    Writes(ed, RenderAccess(f, c), parent);
  }

  /** replaceAccessControlSection: last write wins, on any file that ends in a line break. */
  lemma AccessLastWins(ed: Editor, f: Formats, text: string, a: AccessControl, b: AccessControl)
    requires IsAccess(ed) && FormatsOk(f) && Terminated(text)
    ensures var once := Rewrite(ed, text, RenderAccess(f, a));
      if once.None? then Rewrite(ed, text, RenderAccess(f, b)).None?
      else Terminated(once.value) && Rewrite(ed, once.value, RenderAccess(f, b)) == Rewrite(ed, text, RenderAccess(f, b))
  {
    hide *;
    forall parent: nat ensures WritesLines(ed, RenderAccess(f, a), parent) && WritesLines(ed, RenderAccess(f, b), parent) {
      AccessWrites(ed, f, a, parent);
      AccessWrites(ed, f, b, parent);
    }
    RewriteLastWins(ed, text, RenderAccess(f, a), RenderAccess(f, b));
  }

  // ---- the upstream proxy -------------------------------------------------------------------------

  lemma UriLineFits(ed: Editor, f: Formats, parent: nat, uri: string)
    requires IsUpstream(ed) && FormatsOk(f)
    ensures Fits(ed, UriLine(f, parent + 2, uri), parent) && Removable(ed, UriLine(f, parent + 2, uri), parent)
  {
    var lead, key := "output_proxy_uri:", "output_proxy_uri";
    assert lead[..16] == key && ed.keys[0] == key;
    assert Telling(ed, lead) && LineText(lead) && Opens(lead, key);
    hide Fits, LineOf, Removable, Telling, LineText, Opens, FormatsOk, IsUpstream;
    Quoted(f, uri);
    NothingAfter(lead);
    KeyLeadFits(ed, parent, key, lead, if uri == "" then "" else " " + f.quote(uri));
  }

  lemma WindowsKey()
    ensures LineText(WINDOWS_KEY + ":") && Opens(WINDOWS_KEY + ":", WINDOWS_KEY)
  {
    var a, b := "add_windows_authentication", "_to_output_proxy";
    assert OneLine(a) && OneLine(b) && ':' !in a && ':' !in b;
    assert !IsSpace(a[0]) && a[0] != '#' && !IsSpace(b[15]);
    assert |a| == 26 && |b| == 16;
    var key := a + b;
    assert key[0] == a[0] && key[41] == b[15];
    assert (key + ":")[..42] == key;
  }

  lemma WindowsLineFits(ed: Editor, parent: nat, on: bool)
    requires IsUpstream(ed)
    ensures Fits(ed, WindowsLine(parent + 2, on), parent)
  {
    WindowsKey();
    var lead := WINDOWS_KEY + ":";
    assert ed.keys[1] == WINDOWS_KEY;
    assert Telling(ed, lead) by { assert lead[0] == "add_windows_authentication"[0]; }
    assert OneLine(" true") && OneLine(" false");
    hide Fits, LineOf, Removable, Telling, LineText, Opens, IsUpstream;
    KeyLeadFits(ed, parent, WINDOWS_KEY, lead, if on then " true" else " false");
  }

  lemma NoProxyLineFits(ed: Editor, parent: nat, empty: bool)
    requires IsUpstream(ed)
    ensures Fits(ed, NoProxyLine(parent + 2, empty), parent)
  {
    var lead, key := "no_proxy:", "no_proxy";
    assert lead[..8] == key && ed.keys[2] == key;
    assert Telling(ed, lead) && LineText(lead) && Opens(lead, key) && OneLine(" []") && OneLine("");
    hide Fits, LineOf, Removable, Telling, LineText, Opens, IsUpstream;
    KeyLeadFits(ed, parent, key, lead, if empty then " []" else "");
  }

  lemma UpstreamWrites(ed: Editor, f: Formats, u: Upstream, parent: nat)
    requires IsUpstream(ed) && FormatsOk(f)
    ensures WritesLines(ed, RenderUpstream(f, u), parent)
  {
    hide Fits, FormatsOk, Removable, WritesLines, UriLine, WindowsLine, NoProxyLine, ItemLines, TrimSpace, IsUpstream;
    UriLineFits(ed, f, parent, TrimSpace(u.uri));
    WindowsLineFits(ed, parent, u.windowsAuthentication);
    NoProxyLineFits(ed, parent, u.noProxy == []);
    ItemsFit(ed, f, parent, parent + 4, u.noProxy);
    assert AllFit(ed, RenderUpstream(f, u)(parent + 2), parent);
    hide AllFit;
    Writes(ed, RenderUpstream(f, u), parent);
  }

  /** persistUpstreamSettings: last write wins. */
  lemma UpstreamLastWins(ed: Editor, f: Formats, text: string, a: Upstream, b: Upstream)
    requires IsUpstream(ed) && FormatsOk(f) && Terminated(text)
    ensures var once := Rewrite(ed, text, RenderUpstream(f, a));
      if once.None? then Rewrite(ed, text, RenderUpstream(f, b)).None?
      else Terminated(once.value) && Rewrite(ed, once.value, RenderUpstream(f, b)) == Rewrite(ed, text, RenderUpstream(f, b))
  {
    hide *;
    forall parent: nat ensures WritesLines(ed, RenderUpstream(f, a), parent) && WritesLines(ed, RenderUpstream(f, b), parent) {
      UpstreamWrites(ed, f, a, parent);
      UpstreamWrites(ed, f, b, parent);
    }
    RewriteLastWins(ed, text, RenderUpstream(f, a), RenderUpstream(f, b));
  }

  // ---- capture rules ------------------------------------------------------------------------------

  lemma DefaultLineFits(ed: Editor, f: Formats, parent: nat, n: int)
    requires IsCapture(ed) && FormatsOk(f)
    ensures Fits(ed, DefaultLine(f, parent + 2, n), parent) && Removable(ed, DefaultLine(f, parent + 2, n), parent)
  {
    var lead, key := "default_max_bytes:", "default_max_bytes";
    assert lead[..17] == key && ed.keys[0] == key;
    assert Telling(ed, lead) && LineText(lead) && Opens(lead, key);
    hide Fits, LineOf, Removable, Telling, LineText, Opens, FormatsOk, IsCapture;
    Numbered(f, n, 0.0);
    KeyLeadFits(ed, parent, key, lead, " " + f.integer(n));
  }

  lemma TypesLineFits(ed: Editor, parent: nat)
    requires IsCapture(ed)
    ensures Fits(ed, TypesLine(parent + 2), parent) && Removable(ed, TypesLine(parent + 2), parent)
  {
    var lead, key := "mime_types:", "mime_types";
    assert lead[..10] == key && ed.keys[1] == key;
    assert Telling(ed, lead) && LineText(lead) && Opens(lead, key);
    hide Fits, LineOf, Removable, Telling, LineText, Opens, IsCapture;
    NothingAfter(lead);
    KeyLeadFits(ed, parent, key, lead, "");
  }

  lemma NameLineFits(ed: Editor, f: Formats, parent: nat, indent: nat, name: string)
    requires IsCapture(ed) && FormatsOk(f) && indent > parent + 2
    ensures Fits(ed, NameLine(f, indent, name), parent)
  {
    assert Telling(ed, "- name: ") && LineText("- name: ");
    hide Fits, LineOf, Telling, LineText, FormatsOk, IsCapture;
    Quoted(f, name);
    DeepLeadFits(ed, parent, indent, "- name: ", f.quote(name));
  }

  /** A size in the unit `lead` names. */
  lemma SizeTextFits(ed: Editor, parent: nat, indent: nat, lead: string, n: string)
    requires IsCapture(ed) && OneLine(n) && indent > parent + 2
    requires lead == "max_size_bytes: " || lead == "max_size_kb: " || lead == "max_size_mb: "
    ensures Fits(ed, LineOf(indent, lead + n), parent)
  {
    assert Telling(ed, lead) && LineText(lead);
    hide Fits, LineOf, Telling, LineText, IsCapture;
    DeepLeadFits(ed, parent, indent, lead, n);
  }

  lemma SizeLineFits(ed: Editor, f: Formats, parent: nat, indent: nat, r: Rule)
    requires IsCapture(ed) && FormatsOk(f) && indent > parent + 2
    ensures AllFit(ed, SizeLine(f, indent, r), parent)
  {
    hide Fits, LineOf, FormatsOk, IsCapture;
    if r.bytes.Some? {
      Numbered(f, r.bytes.value, 0.0);
      SizeTextFits(ed, parent, indent, "max_size_bytes: ", f.integer(r.bytes.value));
    } else if r.kb.Some? {
      Numbered(f, 0, r.kb.value);
      SizeTextFits(ed, parent, indent, "max_size_kb: ", f.decimal(r.kb.value));
    } else if r.mb.Some? {
      Numbered(f, 0, r.mb.value);
      SizeTextFits(ed, parent, indent, "max_size_mb: ", f.decimal(r.mb.value));
    }
  }

  lemma {:induction false} RulesFit(ed: Editor, f: Formats, parent: nat, indent: nat, rules: seq<Rule>)
    requires IsCapture(ed) && FormatsOk(f) && indent > parent + 2
    ensures AllFit(ed, RuleLines(f, indent, rules), parent)
  {
    hide Fits, FormatsOk, NameLine, SizeLine, IsCapture;
    if rules != [] {
      NameLineFits(ed, f, parent, indent, rules[0].name);
      SizeLineFits(ed, f, parent, indent + 2, rules[0]);
      RulesFit(ed, f, parent, indent, rules[1..]);
      FitConcat(ed, SizeLine(f, indent + 2, rules[0]), RuleLines(f, indent, rules[1..]), parent);
    }
  }

  lemma CaptureWrites(ed: Editor, f: Formats, c: CaptureRules, parent: nat)
    requires IsCapture(ed) && FormatsOk(f)
    ensures WritesLines(ed, RenderCapture(f, c), parent)
  {
    hide Fits, FormatsOk, Removable, WritesLines, DefaultLine, TypesLine, RuleLines, IsCapture;
    if c.defaultMaxBytes.Some? { DefaultLineFits(ed, f, parent, c.defaultMaxBytes.value); }
    TypesLineFits(ed, parent);
    RulesFit(ed, f, parent, parent + 4, c.mimeTypes);
    assert AllFit(ed, RenderCapture(f, c)(parent + 2), parent);
    hide AllFit;
    Writes(ed, RenderCapture(f, c), parent);
  }

  /** persistDecryptHttpsCaptureRules: last write wins. */
  lemma CaptureLastWins(ed: Editor, f: Formats, text: string, a: CaptureRules, b: CaptureRules)
    requires IsCapture(ed) && FormatsOk(f) && Terminated(text)
    ensures var once := Rewrite(ed, text, RenderCapture(f, a));
      if once.None? then Rewrite(ed, text, RenderCapture(f, b)).None?
      else Terminated(once.value) && Rewrite(ed, once.value, RenderCapture(f, b)) == Rewrite(ed, text, RenderCapture(f, b))
  {
    hide *;
    forall parent: nat ensures WritesLines(ed, RenderCapture(f, a), parent) && WritesLines(ed, RenderCapture(f, b), parent) {
      CaptureWrites(ed, f, a, parent);
      CaptureWrites(ed, f, b, parent);
    }
    RewriteLastWins(ed, text, RenderCapture(f, a), RenderCapture(f, b));
  }

  // ---- the persist functions ------------------------------------------------------------------------

  /** One section of a file rewritten; None, and nothing written, when the section is not there. */
  method Persist(ed: Editor, text: string, render: nat -> seq<string>) returns (r: Option<string>)
    ensures r == Rewrite(ed, text, render)
  {
    hide Replace, SplitAfter, Join;
    var lines := ReplaceSection(ed, SplitAfter(text), render);
    if lines.None? {
      return None;
    }
    r := Some(Join(lines.value));
  }
}
