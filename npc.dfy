/**
 * NPC scripts (npc/data.go): which NPC names are known, whether a sentence is
 * one of an NPC's scripted replies, and how a script file's lines are turned
 * into those replies.
 *
 * The tables the package loads at start-up (retailNPCs by NPC name,
 * retailIncludes by include file name) are parameters, and so is the
 * regular-expression engine that matches a dynamic reply's pattern. The two
 * line patterns parseFile uses and QuoteMeta are written out.
 */
module Npc {
  import opened Wrappers
  import opened Text

  /** A reply with placeholders: sentences start with prefix and match the pattern re. */
  datatype DynamicResponse = DynamicResponse(prefix: string, re: string)

  /** What one script file yields. Static maps a reply to whether it is known. */
  datatype Responses = Responses(
    name: string,
    fileName: string,
    statics: map<string, bool>,
    dynamic: seq<DynamicResponse>,
    includes: seq<string>)

  type ResponseMap = map<string, Responses>

  /** The regular-expression engine: whether pattern matches somewhere in s. */
  type Matcher = (string, string) -> bool

  /** The zero value a Go map lookup gives for a missing key. */
  const NoResponses := Responses("", "", map[], [], [])

  function Get(m: ResponseMap, key: string): Responses
  {
    if key in m then m[key] else NoResponses
  }

  /** `DynamicResponse.Match`: the prefix is checked before the pattern is consulted. */
  function DynamicMatch(d: DynamicResponse, s: string, matches: Matcher): (b: bool)
    ensures b <==> HasPrefix(s, d.prefix) && matches(d.re, s)
    ensures !HasPrefix(s, d.prefix) ==> !b
  {
    if !HasPrefix(s, d.prefix) then false else matches(d.re, s)
  }

  /** The loop over Dynamic: true as soon as one entry matches. */
  function AnyDynamic(ds: seq<DynamicResponse>, s: string, matches: Matcher): (b: bool)
    ensures b <==> exists i :: 0 <= i < |ds| && DynamicMatch(ds[i], s, matches)
  {
    if ds == [] then false
    else if DynamicMatch(ds[0], s, matches) then true
    else
      assert forall i :: 1 <= i < |ds| ==> ds[i] == ds[1..][i - 1];
      AnyDynamic(ds[1..], s, matches)
  }

  /**
   * `Responses.Match`: a known static reply, a matching dynamic reply, or a
   * match in an included file (a missing include is the zero value and
   * matches nothing). Includes can include further files; fuel bounds how
   * deep that goes.
   */
  function Match(r: Responses, s: string, includes: ResponseMap, matches: Matcher, fuel: nat): (b: bool)
    ensures b <==> (s in r.statics && r.statics[s])
                   || (exists i :: 0 <= i < |r.dynamic| && DynamicMatch(r.dynamic[i], s, matches))
                   || (fuel > 0 && exists k :: 0 <= k < |r.includes| && Match(Get(includes, r.includes[k]), s, includes, matches, fuel - 1))
    decreases fuel, 2, 0
  {
    (s in r.statics && r.statics[s]) || AnyDynamic(r.dynamic, s, matches) || AnyInclude(r.includes, s, includes, matches, fuel)
  }

  /** The loop over Includes. */
  function AnyInclude(names: seq<string>, s: string, includes: ResponseMap, matches: Matcher, fuel: nat): (b: bool)
    ensures b <==> fuel > 0 && exists k :: 0 <= k < |names| && Match(Get(includes, names[k]), s, includes, matches, fuel - 1)
    decreases fuel, 1, |names|
  {
    if fuel == 0 || names == [] then false
    else if Match(Get(includes, names[0]), s, includes, matches, fuel - 1) then true
    else
      assert forall k :: 1 <= k < |names| ==> names[k] == names[1..][k - 1];
      AnyInclude(names[1..], s, includes, matches, fuel)
  }

  /** More fuel never loses a match: once fuel covers the include depth, the answer is settled. */
  lemma {:induction false} MoreFuel(r: Responses, s: string, includes: ResponseMap, matches: Matcher, fuel: nat)
    requires Match(r, s, includes, matches, fuel)
    ensures Match(r, s, includes, matches, fuel + 1)
    decreases fuel
  {
    if !(s in r.statics && r.statics[s]) && !AnyDynamic(r.dynamic, s, matches) {
      var k :| 0 <= k < |r.includes| && Match(Get(includes, r.includes[k]), s, includes, matches, fuel - 1);
      MoreFuel(Get(includes, r.includes[k]), s, includes, matches, fuel - 1);
    }
  }

  /** `IsNPC`. */
  predicate IsNPC(npcs: ResponseMap, name: string)
  {
    name in npcs
  }

  /** `IsRetailResponse`: a known NPC, and the sentence is one of its replies. */
  function IsRetailResponse(npcs: ResponseMap, includes: ResponseMap, matches: Matcher, fuel: nat, name: string, s: string): (b: bool)
    ensures b ==> IsNPC(npcs, name)
    ensures b <==> name in npcs && Match(npcs[name], s, includes, matches, fuel)
  {
    IsNPC(npcs, name) && Match(npcs[name], s, includes, matches, fuel)
  }

  /** `ResponseMap.Match`: a name the map lacks has the zero Responses, which matches nothing. */
  function MapMatch(m: ResponseMap, name: string, s: string, includes: ResponseMap, matches: Matcher, fuel: nat): (b: bool)
    ensures name !in m ==> !b
    ensures name in m ==> (b <==> Match(m[name], s, includes, matches, fuel))
  {
    Match(Get(m, name), s, includes, matches, fuel)
  }

  // ---- Line patterns ----

  /** The characters `\s` stands for in Go's regular expressions. */
  predicate IsSpace(c: char)
  {
    c == '\t' || c == '\n' || c == '\U{000C}' || c == '\r' || c == ' '
  }

  /** The line with its leading white space removed. */
  function SkipSpace(s: string): (r: string)
    ensures |r| <= |s| && r == s[|s| - |r|..]
    ensures r == [] || !IsSpace(r[0])
    ensures forall i :: 0 <= i < |s| - |r| ==> IsSpace(s[i])
  {
    if s != [] && IsSpace(s[0]) then SkipSpace(s[1..]) else s
  }

  /**
   * The submatch of `^\s*` lead `([^"]+)"`: after leading white space and
   * lead, a non-empty run of characters other than a double quote, closed by
   * a double quote.
   */
  function Captured(line: string, lead: string): (r: Option<string>)
    ensures r.Some? ==> |r.value| > 0 && '"' !in r.value
  {
    var t := SkipSpace(line);
    if !HasPrefix(t, lead) then None
    else
      var rest := t[|lead|..];
      match Index(rest, "\"")
      case None => None
      case Some(i) =>
        if i == 0 then None
        else
          NoCharBefore(rest, '"', i);
          Some(rest[..i])
  }

  const NameLead := "Name = \""
  const IncludeLead := "@\""

  /** `nameRE`'s submatch. */
  function NameOf(line: string): Option<string>
  {
    Captured(line, NameLead)
  }

  /** `includeRE`'s submatch. */
  function IncludeOf(line: string): Option<string>
  {
    Captured(line, IncludeLead)
  }

  /** Leading white space is skipped up to the first other character. */
  lemma {:induction false} SkipSpacePrefix(ws: string, rest: string)
    requires (forall i :: 0 <= i < |ws| ==> IsSpace(ws[i])) && rest != [] && !IsSpace(rest[0])
    ensures SkipSpace(ws + rest) == rest
    decreases |ws|
  {
    var s := ws + rest;
    if ws == [] {
      assert s == rest;
    } else {
      assert s[0] == ws[0];
      assert s[1..] == ws[1..] + rest;
      assert forall i :: 0 <= i < |ws| - 1 ==> ws[1..][i] == ws[i + 1];
      SkipSpacePrefix(ws[1..], rest);
    }
  }

  /** The first quote in a quote-free text, a quote and anything after it is right after the text. */
  lemma FirstQuote(v: string, rest: string)
    requires '"' !in v
    ensures Index(v + "\"" + rest, "\"") == Some(|v|)
  {
    var r := v + "\"" + rest;
    assert r[|v|..|v| + 1] == "\"";
    assert OccursAt(r, "\"", |v|);
    forall j | 0 <= j < |v| ensures !OccursAt(r, "\"", j) {
      assert r[j] == v[j];
      assert r[j..j + 1] == [r[j]];
    }
  }

  /** Captured once white space is skipped: the lead, then the value up to the first quote. */
  lemma CapturedAfterSpace(line: string, lead: string, after: string, v: string)
    requires SkipSpace(line) == lead + after && |v| > 0
    requires Index(after, "\"") == Some(|v|) && after[..|v|] == v
    ensures Captured(line, lead) == Some(v)
  {
    var t := lead + after;
    assert t[..|lead|] == lead && t[|lead|..] == after;
  }

  /** Round trip: white space, the lead, a quote-free value and a closing quote capture exactly that value. */
  lemma CapturedRoundTrip(ws: string, lead: string, v: string, rest: string)
    requires forall i :: 0 <= i < |ws| ==> IsSpace(ws[i])
    requires |lead| > 0 && !IsSpace(lead[0]) && |v| > 0 && '"' !in v
    ensures Captured(ws + lead + v + "\"" + rest, lead) == Some(v)
  {
    var after := v + "\"" + rest;
    var line := ws + lead + v + "\"" + rest;
    assert SkipSpace(line) == lead + after by {
      assert line == ws + (lead + after);
      SkipSpacePrefix(ws, lead + after);
    }
    assert Index(after, "\"") == Some(|v|) && after[..|v|] == v by {
      FirstQuote(v, rest);
    }
    CapturedAfterSpace(line, lead, after, v);
  }

  // ---- Reply patterns ----

  /** The characters `regexp.QuoteMeta` escapes with a backslash. */
  predicate IsMeta(c: char)
  {
    c in "\\.+*?()|[]{}^$"
  }

  /** `regexp.QuoteMeta`: a backslash before every special character. */
  function QuoteMeta(s: string): (r: string)
    ensures |r| >= |s|
  {
    if s == [] then []
    else (if IsMeta(s[0]) then ['\\', s[0]] else [s[0]]) + QuoteMeta(s[1..])
  }

  /** Dropping each escaping backslash. */
  function Unquote(q: string): string
  {
    if q == [] then []
    else if q[0] == '\\' && |q| >= 2 then [q[1]] + Unquote(q[2..])
    else [q[0]] + Unquote(q[1..])
  }

  /** Round trip: the quoted text reads back as the original, so quoting loses nothing. */
  lemma {:induction false} QuoteMetaRoundTrip(s: string)
    ensures Unquote(QuoteMeta(s)) == s
    decreases |s|
  {
    if s != [] {
      var t := QuoteMeta(s[1..]);
      QuoteMetaRoundTrip(s[1..]);
      if IsMeta(s[0]) {
        var q := ['\\', s[0]] + t;
        assert q[2..] == t;
        assert Unquote(q) == [s[0]] + Unquote(t);
      } else {
        var q := [s[0]] + t;
        assert s[0] != '\\' by { assert IsMeta('\\'); }
        assert q[1..] == t;
        assert Unquote(q) == [s[0]] + Unquote(t);
      }
      assert s == [s[0]] + s[1..];
    }
  }

  /** Text with no special character is left as it is. */
  lemma {:induction false} QuoteMetaPlain(s: string)
    requires forall i :: 0 <= i < |s| ==> !IsMeta(s[i])
    ensures QuoteMeta(s) == s
    decreases |s|
  {
    if s != [] {
      QuoteMetaPlain(s[1..]);
      assert s == [s[0]] + s[1..];
    }
  }

  /** The pattern a reply with placeholders becomes: quoted, then each placeholder replaced by what it stands for. */
  function Pattern(r: string): string
  {
    var q := QuoteMeta(r);
    var p := ReplaceAll(q, "%P", "\\d+");
    var a := ReplaceAll(p, "%A", "\\d+");
    var t := ReplaceAll(a, "%T", "\\d{2}:\\d{2}");
    ReplaceAll(t, "%N", "[A-Za-z' -]+")
  }

  /** Text lacking one of sub's characters does not contain sub. */
  lemma MissingCharNoSub(s: string, sub: string, k: nat)
    requires k < |sub| && sub[k] !in s
    ensures !Contains(s, sub)
  {
    forall j: nat ensures !OccursAt(s, sub, j) {
      if j + |sub| <= |s| {
        assert s[j..j + |sub|][k] == s[j + k];
      }
    }
  }

  /** A reply with one %P placeholder between plain text becomes that text with `\d+` in its place. */
  lemma NumberPlaceholder(a: string, b: string)
    requires forall i :: 0 <= i < |a| ==> !IsMeta(a[i]) && a[i] != '%'
    requires forall i :: 0 <= i < |b| ==> !IsMeta(b[i]) && b[i] != '%'
    ensures Pattern(a + "%P" + b) == a + "\\d+" + b
  {
    var r := a + "%P" + b;
    forall i | 0 <= i < |r| ensures !IsMeta(r[i]) {
      if i >= |a| + 2 {
        assert r[i] == b[i - |a| - 2];
      } else if i >= |a| {
      } else {
        assert r[i] == a[i];
      }
    }
    QuoteMetaPlain(r);
    MissingCharNoSub(a, "%P", 0);
    MissingCharNoSub(b, "%P", 0);
    forall j | 0 <= j < |a| ensures !OccursAt(r, "%P", j) {
      assert r[j] == a[j];
      if j + 2 <= |r| {
        assert r[j..j + 2][0] == r[j];
      }
    }
    ReplaceOne(a, "%P", b, "\\d+");
    var p := a + "\\d+" + b;
    assert '%' !in p by {
      forall i | 0 <= i < |p| ensures p[i] != '%' {
        if i >= |a| + 3 {
          assert p[i] == b[i - |a| - 3];
        } else if i < |a| {
          assert p[i] == a[i];
        }
      }
    }
    MissingCharNoSub(p, "%A", 0);
    ReplaceAbsent(p, "%A", "\\d+");
    MissingCharNoSub(p, "%T", 0);
    ReplaceAbsent(p, "%T", "\\d{2}:\\d{2}");
    MissingCharNoSub(p, "%N", 0);
    ReplaceAbsent(p, "%N", "[A-Za-z' -]+");
  }

  /** A reply with a '%' as a dynamic reply: the text before the first '%', and the pattern. */
  function ToDynamic(r: string): (d: DynamicResponse)
    requires '%' in r
    ensures HasPrefix(r, d.prefix) && '%' !in d.prefix && r[|d.prefix|] == '%'
    ensures d.re == Pattern(r)
  {
    ContainsChar(r, '%');
    var pieces := Split(r, "%");
    ContainsChar(pieces[0], '%');
    assert r[|pieces[0]|..|pieces[0]| + 1] == "%";
    DynamicResponse(pieces[0], Pattern(r))
  }

  /**
   * One quoted reply: with a '%' it is appended to Dynamic as a pattern
   * starting with the text before the '%'; without one it is marked known in
   * Static. What was known stays known.
   */
  function AddResponse(resp: Responses, x: string): (r: Responses)
    ensures r.name == resp.name && r.fileName == resp.fileName && r.includes == resp.includes
    ensures forall k :: k in resp.statics && resp.statics[k] ==> k in r.statics && r.statics[k]
    ensures '%' !in x ==> x in r.statics && r.statics[x] && r.dynamic == resp.dynamic
    ensures '%' in x ==>
      (r.statics == resp.statics && |r.dynamic| == |resp.dynamic| + 1
       && r.dynamic[..|resp.dynamic|] == resp.dynamic
       && HasPrefix(x, r.dynamic[|resp.dynamic|].prefix) && '%' !in r.dynamic[|resp.dynamic|].prefix)
  {
    ContainsChar(x, '%');
    if Contains(x, "%") then
      var d := ToDynamic(x);
      assert (resp.dynamic + [d])[..|resp.dynamic|] == resp.dynamic;
      resp.(dynamic := resp.dynamic + [d])
    else resp.(statics := resp.statics[x := true])
  }

  /** The pieces at odd positions from i on, one after the other. */
  function AddPieces(resp: Responses, pieces: seq<string>, i: nat): (r: Responses)
    ensures r.name == resp.name && r.fileName == resp.fileName && r.includes == resp.includes
    decreases |pieces| - i
  {
    if i >= |pieces| then resp
    else AddPieces(AddResponse(resp, pieces[i]), pieces, i + 2)
  }

  /** A reply already known stays known however many pieces are added. */
  lemma {:induction false} KnownStaysKnown(resp: Responses, pieces: seq<string>, i: nat, k: string)
    requires k in resp.statics && resp.statics[k]
    ensures k in AddPieces(resp, pieces, i).statics && AddPieces(resp, pieces, i).statics[k]
    decreases |pieces| - i
  {
    if i < |pieces| {
      KnownStaysKnown(AddResponse(resp, pieces[i]), pieces, i + 2, k);
    }
  }

  /** Every piece at i, i + 2, ... that holds no '%' is known afterwards. */
  lemma {:induction false} PlainReplyKnown(resp: Responses, pieces: seq<string>, i: nat, j: nat)
    requires i <= j < |pieces| && (j - i) % 2 == 0 && '%' !in pieces[j]
    ensures pieces[j] in AddPieces(resp, pieces, i).statics && AddPieces(resp, pieces, i).statics[pieces[j]]
    decreases |pieces| - i
  {
    var next := AddResponse(resp, pieces[i]);
    if j == i {
      KnownStaysKnown(next, pieces, i + 2, pieces[j]);
    } else {
      PlainReplyKnown(next, pieces, i + 2, j);
    }
  }

  /** Dynamic only grows at its end: the dynamic replies there were come first, unchanged. */
  lemma {:induction false} DynamicGrows(resp: Responses, pieces: seq<string>, i: nat)
    ensures var r := AddPieces(resp, pieces, i);
      |resp.dynamic| <= |r.dynamic| && r.dynamic[..|resp.dynamic|] == resp.dynamic
    decreases |pieces| - i
  {
    if i < |pieces| {
      var next := AddResponse(resp, pieces[i]);
      DynamicGrows(next, pieces, i + 2);
      var r := AddPieces(next, pieces, i + 2);
      assert r.dynamic[..|resp.dynamic|] == r.dynamic[..|next.dynamic|][..|resp.dynamic|];
    }
  }

  /** The loop over the quoted pieces: positions 1, 3, 5, ... */
  method AddResponses(resp0: Responses, pieces: seq<string>) returns (resp: Responses)
    ensures resp == AddPieces(resp0, pieces, 1)
  {
    resp := resp0;
    var i := 1;
    while i < |pieces|
      invariant i >= 1 && AddPieces(resp0, pieces, 1) == AddPieces(resp, pieces, i)
      decreases |pieces| - i
    {
      var r := pieces[i];
      if Contains(r, "%") {
        ContainsChar(r, '%');
        var prefix := Split(r, "%")[0];
        var re := QuoteMeta(r);
        re := ReplaceAll(re, "%P", "\\d+");
        re := ReplaceAll(re, "%A", "\\d+");
        re := ReplaceAll(re, "%T", "\\d{2}:\\d{2}");
        re := ReplaceAll(re, "%N", "[A-Za-z' -]+");
        resp := resp.(dynamic := resp.dynamic + [DynamicResponse(prefix, re)]);
      } else {
        resp := resp.(statics := resp.statics[r := true]);
      }
      i := i + 2;
    }
  }

  // ---- parseFile ----

  /** The loop's state: the replies so far, and whether the Name line is still to be found. */
  datatype Scan = Scan(resp: Responses, needsName: bool)

  /** The '@' check at the end of a pass: an include line appends its file name; one includeRE rejects is a Go panic. */
  function IncludeStep(st: Scan, line: string): (r: Option<Scan>)
    ensures r.Some? ==> r.value.needsName == st.needsName && r.value.resp.name == st.resp.name
    ensures r.Some? ==> r.value.resp.fileName == st.resp.fileName && r.value.resp.statics == st.resp.statics
    ensures !HasPrefix(line, "@") ==> r == Some(st)
    ensures r.None? <==> HasPrefix(line, "@") && IncludeOf(line).None?
  {
    if !HasPrefix(line, "@") then Some(st)
    else
      match IncludeOf(line)
      case None => None
      case Some(n) => Some(st.(resp := st.resp.(includes := st.resp.includes + [n])))
  }

  /** One pass of parseFile's loop over a line. None where Go panics. */
  function LineStep(st: Scan, line: string): (r: Option<Scan>)
    ensures r.Some? ==> r.value.resp.fileName == st.resp.fileName
    ensures st.needsName && NameOf(line).Some? ==> r == Some(Scan(st.resp.(name := NameOf(line).value), false))
    ensures !(st.needsName && NameOf(line).Some?) && r.Some? ==>
      r.value.needsName == st.needsName && r.value.resp.name == st.resp.name
  {
    if st.needsName && NameOf(line).Some? then Some(Scan(st.resp.(name := NameOf(line).value), false))
    else if Contains(line, "->") then
      var cut := Split(line, "->")[1];
      var pieces := Split(cut, "\"");
      if |pieces| == 1 then Some(st)
      else IncludeStep(Scan(AddPieces(st.resp, pieces, 1), st.needsName), cut)
    else IncludeStep(st, line)
  }

  /** The loop from line k on. */
  function LinesFrom(lines: seq<string>, k: nat, st: Scan): (r: Option<Scan>)
    requires k <= |lines|
    ensures r.Some? ==> r.value.resp.fileName == st.resp.fileName
    ensures r.Some? && !st.needsName ==> !r.value.needsName && r.value.resp.name == st.resp.name
    decreases |lines| - k
  {
    if k == |lines| then Some(st)
    else
      match LineStep(st, lines[k])
      case None => None
      case Some(st') => LinesFrom(lines, k + 1, st')
  }

  /** What `parseFile` returns for a file's lines, or None where it panics. */
  function FileResponses(lines: seq<string>, fName: string, isInclude: bool): (r: Option<Responses>)
    ensures r.Some? ==> r.value.fileName == fName
    ensures r.Some? && isInclude ==> r.value.name == ""
  {
    match LinesFrom(lines, 0, Scan(Responses("", fName, map[], [], []), !isInclude))
    case None => None
    case Some(st) => Some(st.resp)
  }

  /** `parseFile` over the lines the scanner yields. */
  method ParseFile(lines: seq<string>, fName: string, isInclude: bool) returns (r: Option<Responses>)
    ensures r == FileResponses(lines, fName, isInclude)
  {
    var st := Scan(Responses("", fName, map[], [], []), !isInclude);
    var k := 0;
    while k < |lines|
      invariant k <= |lines|
      invariant LinesFrom(lines, 0, Scan(Responses("", fName, map[], [], []), !isInclude)) == LinesFrom(lines, k, st)
      decreases |lines| - k
    {
      var next := ParseLine(st, lines[k]);
      if next.None? {
        return None;
      }
      st := next.value;
      k := k + 1;
    }
    return Some(st.resp);
  }

  /** One pass of parseFile's loop; None where Go panics. */
  method ParseLine(st: Scan, line: string) returns (r: Option<Scan>)
    ensures r == LineStep(st, line)
  {
    var resp := st.resp;
    if st.needsName && NameOf(line).Some? {
      return Some(Scan(resp.(name := NameOf(line).value), false));
    }
    var line := line;
    if Contains(line, "->") {
      line := Split(line, "->")[1];
      var responses := Split(line, "\"");
      if |responses| == 1 {
        return Some(st);
      }
      resp := AddResponses(resp, responses);
    }
    if HasPrefix(line, "@") {
      var name := IncludeOf(line);
      if name.None? {
        return None;
      }
      resp := resp.(includes := resp.includes + [name.value]);
    }
    return Some(Scan(resp, st.needsName));
  }

  /** The capture of the first line from k on that nameRE matches. */
  function FirstName(lines: seq<string>, k: nat): Option<string>
    requires k <= |lines|
    decreases |lines| - k
  {
    if k == |lines| then None
    else if NameOf(lines[k]).Some? then NameOf(lines[k])
    else FirstName(lines, k + 1)
  }

  /** The Name of a parsed NPC file comes from the first line nameRE matches, and stays empty without one. */
  lemma {:induction false} NameFromFirstNameLine(lines: seq<string>, k: nat, st: Scan)
    requires k <= |lines| && st.needsName && LinesFrom(lines, k, st).Some?
    ensures LinesFrom(lines, k, st).value.resp.name ==
      (match FirstName(lines, k) case Some(n) => n case None => st.resp.name)
    decreases |lines| - k
  {
    if k < |lines| {
      var st' := LineStep(st, lines[k]).value;
      if NameOf(lines[k]).None? {
        NameFromFirstNameLine(lines, k + 1, st');
      }
    }
  }

  /** "->" does not occur in pre + "->" + b before the arrow that follows pre. */
  lemma ArrowAfter(pre: string, b: string)
    requires !Contains(pre, "->")
    ensures forall j :: 0 <= j < |pre| ==> !OccursAt(pre + "->" + b, "->", j)
  {
    var line := pre + "->" + b;
    forall j | 0 <= j < |pre| ensures !OccursAt(line, "->", j) {
      if j + 2 <= |pre| {
        assert line[j..j + 2] == pre[j..j + 2];
        assert !OccursAt(pre, "->", j);
      } else {
        assert line[j + 1] == '-';
      }
    }
  }

  /** The text after the first arrow, when no further arrow follows. */
  lemma AfterArrow(pre: string, cut: string)
    requires !Contains(pre, "->") && '>' !in cut
    ensures Contains(pre + "->" + cut, "->") && Split(pre + "->" + cut, "->")[1] == cut
  {
    ArrowAfter(pre, cut);
    SplitAfter(pre, "->", cut);
    MissingCharNoSub(cut, "->", 1);
    assert (pre + "->" + cut)[|pre|..|pre| + 2] == "->";
    assert OccursAt(pre + "->" + cut, "->", |pre|);
  }

  /** Split on a quote, text between two quotes is the middle piece of three. */
  lemma QuotedPieces(text: string)
    requires '"' !in text
    ensures Split(" \"" + text + "\"", "\"") == [" ", text, ""]
  {
    var tail := text + "\"" + "";
    var s := " " + "\"" + tail;
    assert s == " \"" + text + "\"";
    assert !OccursAt(s, "\"", 0) by { assert s[0..1] == " "; }
    SplitAfter(" ", "\"", tail);
    ClosingQuote(text);
  }

  /** Text without a quote, then a quote: the text and an empty piece. */
  lemma ClosingQuote(text: string)
    requires '"' !in text
    ensures Split(text + "\"" + "", "\"") == [text, ""]
  {
    var tail := text + "\"" + "";
    forall j | 0 <= j < |text| ensures !OccursAt(tail, "\"", j) {
      assert tail[j..j + 1] == [text[j]];
    }
    SplitAfter(text, "\"", "");
    MissingCharNoSub("", "\"", 0);
  }

  /**
   * A reply line: whatever stands before the first arrow, then one quoted
   * reply without a '%', is recorded as a known static reply and changes
   * nothing else.
   */
  lemma ReplyLine(st: Scan, pre: string, text: string)
    requires !st.needsName && !Contains(pre, "->")
    requires '"' !in text && '%' !in text && '>' !in text
    ensures LineStep(st, pre + "->" + " \"" + text + "\"") ==
      Some(st.(resp := st.resp.(statics := st.resp.statics[text := true])))
  {
    var cut := " \"" + text + "\"";
    var line := pre + "->" + " \"" + text + "\"";
    assert line == pre + "->" + cut;
    QuotedReplyCut(text);
    AfterArrow(pre, cut);
    QuotedPieces(text);
    OneStaticReply(st.resp, text);
    ArrowLine(st, line, cut, [" ", text, ""]);
  }

  /** The quoted reply has no '>' and does not start with '@'. */
  lemma QuotedReplyCut(text: string)
    requires '>' !in text
    ensures '>' !in " \"" + text + "\"" && !HasPrefix(" \"" + text + "\"", "@")
  {
    var cut := " \"" + text + "\"";
    forall i | 0 <= i < |cut| ensures cut[i] != '>' {
      if 2 <= i < |cut| - 1 {
        assert cut[i] == text[i - 2];
      }
    }
    assert cut[..1] == " ";
  }

  /** The pieces of one quoted reply without '%' add that reply to Static. */
  lemma OneStaticReply(resp: Responses, text: string)
    requires '%' !in text
    ensures AddPieces(resp, [" ", text, ""], 1) == resp.(statics := resp.statics[text := true])
  {
    ContainsChar(text, '%');
    assert [" ", text, ""][1] == text;
  }

  /** A line past the Name line holding an arrow: the quoted pieces after the arrow, then the '@' check on that text. */
  lemma ArrowLine(st: Scan, line: string, cut: string, pieces: seq<string>)
    requires !st.needsName && Contains(line, "->") && Split(line, "->")[1] == cut
    requires Split(cut, "\"") == pieces && |pieces| > 1 && !HasPrefix(cut, "@")
    ensures LineStep(st, line) == Some(Scan(AddPieces(st.resp, pieces, 1), false))
  {
  }

  /** An include line `@"n"` with no arrow appends n to the includes and changes nothing else. */
  lemma IncludeLine(st: Scan, n: string, rest: string)
    requires !st.needsName && |n| > 0 && '"' !in n
    requires !Contains("@\"" + n + "\"" + rest, "->")
    ensures LineStep(st, "@\"" + n + "\"" + rest) ==
      Some(st.(resp := st.resp.(includes := st.resp.includes + [n])))
  {
    var line := "@\"" + n + "\"" + rest;
    assert [] + IncludeLead + n + "\"" + rest == line;
    CapturedRoundTrip([], IncludeLead, n, rest);
    assert line[..1] == "@";
  }

  /** A line starting with '@' that includeRE rejects makes parseFile panic. */
  lemma UnquotedIncludeCrashes(st: Scan, rest: string)
    requires !st.needsName && (rest == [] || rest[0] != '"')
    requires !Contains("@" + rest, "->")
    ensures LineStep(st, "@" + rest).None?
  {
    var line := "@" + rest;
    assert line[..1] == "@";
    UnquotedInclude(rest);
  }

  /** includeRE needs a quote right after the '@'. */
  lemma UnquotedInclude(rest: string)
    requires rest == [] || rest[0] != '"'
    ensures IncludeOf("@" + rest).None?
  {
    var line := "@" + rest;
    assert SkipSpace(line) == line by {
      assert line[0] == '@';
    }
    assert !HasPrefix(line, IncludeLead) by {
      if |rest| > 0 {
        assert line[1] == rest[0];
        assert IncludeLead[1] == '"';
      }
    }
  }

  /** An arrow line with no quote after the arrow is skipped, even when it starts with '@'. */
  lemma UnquotedReplySkipped(st: Scan, pre: string, cut: string)
    requires !st.needsName && !Contains(pre, "->") && '>' !in cut && '"' !in cut
    ensures LineStep(st, pre + "->" + cut) == Some(st)
  {
    AfterArrow(pre, cut);
    ContainsChar(cut, '"');
  }
}
