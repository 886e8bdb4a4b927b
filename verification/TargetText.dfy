/** A connection target as text: printed from a SOCKS5 request, split again by the proxy and by the relay worker. */
module TargetText {
  import opened Wrappers
  import opened Digits
  import opened Wire

  type Port = p: nat | p <= 0xFFFF

  /** The address forms of a CONNECT request (section 5 of RFC 1928). */
  datatype Address = V4(a: byte, b: byte, c: byte, d: byte) | V6(groups: seq<(byte, byte)>) | Domain(name: string)

  predicate WellFormed(a: Address) { a.V6? ==> |a.groups| == 8 }

  function HexChar(d: nat): char
    requires d < 16
  {
    if d < 10 then DigitChar(d) else 'a' + (d - 10) as char
  }

  /** `{:02x}` twice: one colon-separated group. */
  function Group(g: (byte, byte)): (s: string)
    ensures |s| == 4
  {
    [HexChar(g.0 as nat / 16), HexChar(g.0 as nat % 16), HexChar(g.1 as nat / 16), HexChar(g.1 as nat % 16)]
  }

  function Groups(gs: seq<(byte, byte)>): string
  {
    if gs == [] then "" else if |gs| == 1 then Group(gs[0]) else Group(gs[0]) + ":" + Groups(gs[1..])
  }

  function HostText(a: Address): string
  {
    match a
    case V4(a, b, c, d) => Print(a as nat) + "." + Print(b as nat) + "." + Print(c as nat) + "." + Print(d as nat)
    case V6(gs) => "[" + Groups(gs) + "]"
    case Domain(name) => name
  }

  function Target(host: string, port: Port): string { host + ":" + Print(port) }

  // ---- searching ----

  function Last(s: string, c: char): (i: int)
    ensures -1 <= i < |s|
    ensures i >= 0 ==> s[i] == c && forall j :: i < j < |s| ==> s[j] != c
    ensures i < 0 ==> forall j :: 0 <= j < |s| ==> s[j] != c
    decreases |s|
  {
    if s == [] then -1 else if s[|s| - 1] == c then |s| - 1 else Last(s[..|s| - 1], c)
  }

  // ---- the proxy's splitter ----

  /** Host (a bracketed one with its brackets) and port. After a closing bracket one character is skipped unread. */
  function SplitTarget(t: string): Option<(string, Port)>
  {
    if |t| > 0 && t[0] == '[' then
      var end := First(t, ']');
      if end < 0 || end + 2 > |t| then None else
      var port := ParseUnsigned(t[end + 2..], 0xFFFF);
      if port.None? then None else Some((t[..end + 1], PortOf(port.value)))
    else
      var colon := Last(t, ':');
      if colon < 0 then None else
      var port := ParseUnsigned(t[colon + 1..], 0xFFFF);
      if port.None? then None else Some((t[..colon], PortOf(port.value)))
  }

  function PortOf(p: nat): Port { if p <= 0xFFFF then p else 0 }

  // ---- the worker's splitter ----

  function DigitPrefix(s: string): (p: string)
    ensures AllDigits(p) && |p| <= |s| && p == s[..|p|]
    ensures |p| == |s| || !IsDigit(s[|p|])
  {
    if s == [] || !IsDigit(s[0]) then "" else [s[0]] + DigitPrefix(s[1..])
  }

  /** JavaScript's `parseInt(s, 10)`; `None` is NaN. */
  function ParseInt(s: string): Option<int>
  {
    var t := TrimStart(s);
    var signed := t != "" && (t[0] == '-' || t[0] == '+');
    var digits := DigitPrefix(if signed then t[1..] else t);
    if digits == "" then None else Some(if signed && t[0] == '-' then 0 - Value(digits) else Value(digits))
  }

  /** Host without brackets and port; `None` is a thrown error. */
  function ParseSocketTarget(t: string): Option<(string, int)>
  {
    if t != "" && t[0] == '[' then
      var end := First(t, ']');
      if end < 0 then None else
      var hostname, rest := t[1..end], t[end + 1..];
      var port := if rest != "" && rest[0] == ':' then ParseInt(if rest[1..] == "" then "443" else rest[1..])
                  else Some(443);
      if hostname == "" || port.None? then None else Some((hostname, port.value))
    else
      var colon := Last(t, ':');
      if colon < 0 then Some((t, 443)) else
      var hostname := t[..colon];
      var port := ParseInt(if t[colon + 1..] == "" then "443" else t[colon + 1..]);
      if hostname == "" || port.None? then None else Some((hostname, port.value))
  }

  // ---- round trips ----

  predicate Bracketed(h: string) { h != "" && h[0] == '[' }

  /** A bracketed host whose only closing bracket is its last character. */
  predicate CleanlyBracketed(h: string) { Bracketed(h) && First(h, ']') == |h| - 1 }

  function Unbracketed(h: string): string { if CleanlyBracketed(h) then h[1..|h| - 1] else h }

  lemma PortText(port: Port)
    ensures forall i :: 0 <= i < |Print(port)| ==> Print(port)[i] != ':' && Print(port)[i] != ']'
    ensures ParseUnsigned(Print(port), 0xFFFF) == Some(port) && ParseInt(Print(port)) == Some(port)
  {
    ParsePrint(port, 0xFFFF);
    ValueOfPrint(port);
    var s := Print(port);
    forall i | 0 <= i < |s| ensures s[i] != ':' && s[i] != ']' { assert IsDigit(s[i]); }
    assert IsDigit(s[0]);
    assert TrimStart(s) == s;
    var p := DigitPrefix(s);
    assert p == s;
  }

  lemma LastColon(h: string, port: Port)
    ensures Last(Target(h, port), ':') == |h|
    ensures Target(h, port)[..|h|] == h && Target(h, port)[|h| + 1..] == Print(port)
  {
    PortText(port);
    var p := Print(port);
    hide Print, ParseUnsigned, ParseInt;
    var t := h + ":" + p;
    assert t[|h|] == ':';
    forall j | |h| < j < |t| ensures t[j] != ':' { assert t[j] == p[j - |h| - 1]; }
  }

  /** The first closing bracket of a target is the host's, if it has any. */
  lemma FirstBracket(h: string, port: Port)
    ensures First(Target(h, port), ']') == First(h, ']')
  {
    PortText(port);
    var p := Print(port);
    hide Print, ParseUnsigned, ParseInt, First;
    var t := h + ":" + p;
    forall j | 0 <= j < |t| ensures t[j] == if j < |h| then h[j] else if j == |h| then ':' else p[j - |h| - 1] {}
    var i, i' := First(h, ']'), First(t, ']');
    if i >= 0 {
      assert t[i] == ']' && forall j :: 0 <= j < i ==> t[j] == h[j];
    } else {
      assert forall j :: 0 <= j < |t| ==> t[j] != ']';
    }
  }

  /** The proxy recovers a printed host and port exactly when the host does not start with a bracket, or is wholly
      inside one pair. */
  lemma ProxySplitsExactly(h: string, port: Port)
    ensures SplitTarget(Target(h, port)) == Some((h, port)) <==> !Bracketed(h) || CleanlyBracketed(h)
  {
    var t := Target(h, port);
    LastColon(h, port);
    FirstBracket(h, port);
    PortText(port);
    hide Print, ParseUnsigned, ParseInt, First, Last;
    if Bracketed(h) {
      assert t[0] == '[';
      if CleanlyBracketed(h) { assert t[..|h|] == h; }
    } else {
      assert t[0] == if h == "" then ':' else h[0];
    }
  }

  /** The worker recovers the same port, and the host up to its brackets, exactly when moreover there is a host. */
  lemma WorkerSplitsExactly(h: string, port: Port)
    ensures ParseSocketTarget(Target(h, port)) == Some((Unbracketed(h), port as int))
            <==> h != "" && (!Bracketed(h) || (CleanlyBracketed(h) && |h| > 2))
  {
    hide *;
    if Bracketed(h) { WorkerSplitsBracketed(h, port); } else { WorkerSplitsPlain(h, port); }
  }

  lemma WorkerSplitsBracketed(h: string, port: Port)
    requires Bracketed(h)
    ensures ParseSocketTarget(Target(h, port)) == Some((Unbracketed(h), port as int))
            <==> CleanlyBracketed(h) && |h| > 2
  {
    FirstBracket(h, port);
    PortText(port);
    var p := Print(port);
    hide Print, ParseUnsigned, ParseInt, First, Last;
    var t := h + ":" + p;
    assert t[0] == '[';
    var end := First(h, ']');
    if CleanlyBracketed(h) {
      assert t[1..end] == h[1..end];
      assert t[end + 1..] == ":" + p;
      assert (":" + p)[1..] == p;
    } else if end >= 0 {
      assert |t[1..end]| < |h|;
    }
  }

  lemma WorkerSplitsPlain(h: string, port: Port)
    requires !Bracketed(h)
    ensures ParseSocketTarget(Target(h, port)) == Some((Unbracketed(h), port as int)) <==> h != ""
  {
    LastColon(h, port);
    PortText(port);
    hide Print, ParseUnsigned, ParseInt, First, Last;
    var t := Target(h, port);
    assert t[0] == if h == "" then ':' else h[0];
  }

  lemma {:induction false} GroupsHaveNoBracket(gs: seq<(byte, byte)>)
    ensures forall i :: 0 <= i < |Groups(gs)| ==> Groups(gs)[i] != ']' && Groups(gs)[i] != '['
    ensures gs != [] ==> Groups(gs) != ""
  {
    if gs != [] {
      GroupsHaveNoBracket(gs[1..]);
      forall i | 0 <= i < 4 ensures Group(gs[0])[i] != ']' && Group(gs[0])[i] != '[' {}
    }
  }

  /** Every address a CONNECT request can carry as numbers, and every non-empty domain that does not start with a
      bracket, survives the trip through text to both programs, with the same port. */
  lemma AddressRoundTrip(a: Address, port: Port)
    requires WellFormed(a) && (a.Domain? ==> a.name != "" && !Bracketed(a.name))
    ensures var t := Target(HostText(a), port);
            && SplitTarget(t) == Some((HostText(a), port))
            && ParseSocketTarget(t) == Some((Unbracketed(HostText(a)), port as int))
    ensures a.V6? ==> Unbracketed(HostText(a)) == Groups(a.groups)
    ensures !a.V6? ==> Unbracketed(HostText(a)) == HostText(a)
  {
    var h := HostText(a);
    match a {
      case V4(x, _, _, _) =>
        assert IsDigit(Print(x as nat)[0]);
        assert h[0] == Print(x as nat)[0];
      case V6(gs) =>
        GroupsHaveNoBracket(gs);
        assert h[|h| - 1] == ']';
        assert forall j :: 0 < j < |h| - 1 ==> h[j] == Groups(gs)[j - 1];
        assert h[1..|h| - 1] == Groups(gs);
        assert CleanlyBracketed(h);
      case Domain(_) =>
    }
    ProxySplitsExactly(h, port);
    WorkerSplitsExactly(h, port);
  }

  // ---- addresses read back ----

  /** What the text of a host shows, up to each separator. */
  function Split(s: string, sep: char): (parts: seq<string>)
    ensures parts != []
  {
    var i := First(s, sep);
    if i < 0 then [s] else [s[..i]] + Split(s[i + 1..], sep)
  }

  lemma SplitOne(part: string, rest: string, sep: char)
    requires sep !in part
    ensures Split(part + [sep] + rest, sep) == [part] + Split(rest, sep)
    ensures Split(part, sep) == [part]
  {
    var t := part + [sep] + rest;
    assert t[|part|] == sep && forall j :: 0 <= j < |part| ==> t[j] == part[j];
    assert First(t, sep) == |part|;
    assert t[..|part|] == part && t[|part| + 1..] == rest;
    assert forall j :: 0 <= j < |part| ==> part[j] != sep;
  }

  /** The four numbers of an IPv4 address are read back from its text, in order. */
  lemma OctetsReadBack(a: byte, b: byte, c: byte, d: byte)
    ensures var parts := Split(HostText(V4(a, b, c, d)), '.');
            && |parts| == 4
            && ParseUnsigned(parts[0], 0xFF) == Some(a as nat) && ParseUnsigned(parts[1], 0xFF) == Some(b as nat)
            && ParseUnsigned(parts[2], 0xFF) == Some(c as nat) && ParseUnsigned(parts[3], 0xFF) == Some(d as nat)
  {
    var w, x, y, z := Print(a as nat), Print(b as nat), Print(c as nat), Print(d as nat);
    NoDots(a as nat);
    NoDots(b as nat);
    NoDots(c as nat);
    NoDots(d as nat);
    hide Print, ParseUnsigned, Split;
    SplitFour(w, x, y, z);
  }

  lemma SplitFour(w: string, x: string, y: string, z: string)
    requires '.' !in w && '.' !in x && '.' !in y && '.' !in z
    ensures Split(w + "." + x + "." + y + "." + z, '.') == [w, x, y, z]
  {
    hide Split;
    SplitOne(y, z, '.');
    SplitOne(z, "", '.');
    SplitOne(x, y + "." + z, '.');
    SplitOne(w, x + "." + y + "." + z, '.');
    Regroup(w, x, y, z);
  }

  lemma Regroup(w: string, x: string, y: string, z: string)
    ensures w + "." + x + "." + y + "." + z == w + ['.'] + (x + "." + y + "." + z)
    ensures x + "." + y + "." + z == x + ['.'] + (y + "." + z) && y + "." + z == y + ['.'] + z
  {
  }

  lemma NoDots(n: nat)
    requires n <= 0xFF
    ensures '.' !in Print(n) && ParseUnsigned(Print(n), 0xFF) == Some(n)
  {
    ParsePrint(n, 0xFF);
    forall i | 0 <= i < |Print(n)| ensures Print(n)[i] != '.' { assert IsDigit(Print(n)[i]); }
  }

  function HexValue(c: char): nat
  {
    if '0' <= c <= '9' then c as nat - '0' as nat else if 'a' <= c <= 'f' then c as nat - 'a' as nat + 10 else 0
  }

  /** The two bytes that four hexadecimal digits stand for. */
  function PairOf(s: string): (nat, nat)
    requires |s| == 4
  {
    (HexValue(s[0]) * 16 + HexValue(s[1]), HexValue(s[2]) * 16 + HexValue(s[3]))
  }

  lemma GroupReadsBack(g: (byte, byte))
    ensures PairOf(Group(g)) == (g.0 as nat, g.1 as nat) && ':' !in Group(g)
  {
    HexReadsBack(g.0 as nat / 16);
    HexReadsBack(g.0 as nat % 16);
    HexReadsBack(g.1 as nat / 16);
    HexReadsBack(g.1 as nat % 16);
    hide HexChar, HexValue;
  }

  lemma HexReadsBack(d: nat)
    requires d < 16
    ensures HexValue(HexChar(d)) == d && HexChar(d) != ':'
  {
  }

  /** The groups of an IPv6 address are read back from its text, in order. */
  lemma {:induction false} GroupsReadBack(gs: seq<(byte, byte)>)
    requires gs != []
    ensures var parts := Split(Groups(gs), ':');
            && |parts| == |gs|
            && forall i :: 0 <= i < |gs| ==> |parts[i]| == 4 && PairOf(parts[i]) == (gs[i].0 as nat, gs[i].1 as nat)
  {
    GroupReadsBack(gs[0]);
    hide Group, PairOf, Split;
    if |gs| == 1 {
      SplitOne(Group(gs[0]), "", ':');
    } else {
      GroupsReadBack(gs[1..]);
      SplitOne(Group(gs[0]), Groups(gs[1..]), ':');
    }
  }

  // ---- the host the proxy classifies by ----

  function TrimOpen(s: string): string { if s != [] && s[0] == '[' then TrimOpen(s[1..]) else s }

  function TrimClose(s: string): string
    decreases |s|
  {
    if s != [] && s[|s| - 1] == ']' then TrimClose(s[..|s| - 1]) else s
  }

  function NormalizedHost(t: string): string
  {
    TrimClose(TrimOpen(if SplitTarget(t).Some? then SplitTarget(t).value.0 else t))
  }

  /** The worker connects to the very host that the proxy checks against its Telegram and relay lists. */
  ghost predicate SameHost(t: string)
  {
    ParseSocketTarget(t).Some? && NormalizedHost(t) == ParseSocketTarget(t).value.0
  }

  /** Which hosts trimming leaves to the worker's parser: a plain one with no closing bracket to lose, or one
      wholly inside a single pair with no second opening bracket to lose. */
  predicate TrimsCleanly(h: string)
  {
    && h != ""
    && (if Bracketed(h) then CleanlyBracketed(h) && |h| > 2 && h[1] != '[' else h[|h| - 1] != ']')
  }

  /** For any host whatever: both sides mean the same host if and only if trimming takes no bracket of the name. */
  lemma SameHostExactly(h: string, port: Port)
    ensures SameHost(Target(h, port)) <==> TrimsCleanly(h)
  {
    hide *;
    if h == "" {
      SameHostNone(port);
    } else if !Bracketed(h) {
      SameHostPlain(h, port);
    } else if CleanlyBracketed(h) {
      SameHostBracketed(h, port);
    } else {
      SameHostBroken(h, port);
    }
    TrimCases();
  }

  lemma TrimCases()
    ensures forall h :: h == "" ==> !TrimsCleanly(h)
    ensures forall h :: h != "" && !Bracketed(h) ==> (TrimsCleanly(h) <==> h[|h| - 1] != ']')
    ensures forall h :: CleanlyBracketed(h) ==> |h| >= 2 && (TrimsCleanly(h) <==> |h| > 2 && h[1] != '[')
    ensures forall h :: Bracketed(h) && !CleanlyBracketed(h) ==> !TrimsCleanly(h)
  {
  }

  lemma SameHostNone(port: Port)
    ensures !SameHost(Target("", port))
  {
    LastColon("", port);
    hide Print, ParseInt, ParseUnsigned, Last;
    assert Target("", port)[0] == ':';
  }

  lemma SameHostPlain(h: string, port: Port)
    requires h != "" && !Bracketed(h)
    ensures SameHost(Target(h, port)) <==> h[|h| - 1] != ']'
  {
    ProxySplitsExactly(h, port);
    WorkerSplitsExactly(h, port);
    TrimCloseShrinks(h);
    assert TrimOpen(h) == h;
    hide SplitTarget, ParseSocketTarget, Target, TrimClose, TrimOpen;
  }

  lemma SameHostBracketed(h: string, port: Port)
    requires CleanlyBracketed(h)
    ensures SameHost(Target(h, port)) <==> |h| > 2 && h[1] != '['
  {
    ProxySplitsExactly(h, port);
    if |h| == 2 {
      EmptyBrackets(h, port);
    } else {
      WorkerSplitsExactly(h, port);
      TrimsBrackets(h);
      hide SplitTarget, ParseSocketTarget, Target, TrimClose, TrimOpen, First;
    }
  }

  lemma EmptyBrackets(h: string, port: Port)
    requires CleanlyBracketed(h) && |h| == 2
    ensures ParseSocketTarget(Target(h, port)).None?
  {
    FirstBracket(h, port);
    hide Print, ParseInt, ParseUnsigned, First, Last;
    assert Target(h, port)[0] == '[';
  }

  lemma TrimsBrackets(h: string)
    requires CleanlyBracketed(h) && |h| > 2
    ensures TrimClose(TrimOpen(h)) == h[1..|h| - 1] <==> h[1] != '['
  {
    var inner := h[1..|h| - 1];
    assert h == "[" + inner + "]";
    assert inner[|inner| - 1] != ']';
    if h[1] != '[' {
      TrimsToInner(inner);
    } else {
      var t := TrimOpen(h[1..]);
      assert TrimOpen(h) == t;
      TrimOpenKeeps(h[1..], |h| - 2);
      assert |t| < |h| - 1 by { assert t == TrimOpen(h[2..]); TrimOpenKeeps(h[2..], |h| - 3); }
      TrimCloseShrinks(t);
    }
  }

  /** Trimming at the front stops at the latest before a character that is no opening bracket. */
  lemma {:induction false} TrimOpenKeeps(s: string, i: nat)
    requires i < |s| && s[i] != '['
    ensures var t := TrimOpen(s); |s| - i <= |t| <= |s| && t == s[|s| - |t|..]
  {
    if s[0] == '[' { TrimOpenKeeps(s[1..], i - 1); }
  }

  lemma {:induction false} TrimCloseShrinks(s: string)
    ensures |TrimClose(s)| <= |s|
    ensures s != "" ==> (TrimClose(s) == s <==> s[|s| - 1] != ']')
    ensures s != "" && s[|s| - 1] == ']' ==> |TrimClose(s)| < |s|
    decreases |s|
  {
    if s != "" && s[|s| - 1] == ']' { TrimCloseShrinks(s[..|s| - 1]); }
  }

  /** A bracket closed too early, or never: the proxy falls back to the whole text, port and bracket included. */
  lemma SameHostBroken(h: string, port: Port)
    requires Bracketed(h) && !CleanlyBracketed(h)
    ensures !SameHost(Target(h, port))
  {
    var t, end := Target(h, port), First(h, ']');
    FirstBracket(h, port);
    if end >= 0 {
      BrokenForWorker(h, port);
      BrokenForProxy(h, port);
      hide SplitTarget, ParseSocketTarget, Target, First, TrimOpen;
    } else {
      assert t[0] == '[';
      hide First, Target;
    }
  }

  lemma BrokenForWorker(h: string, port: Port)
    requires Bracketed(h) && !CleanlyBracketed(h) && First(h, ']') >= 0
    ensures ParseSocketTarget(Target(h, port)).Some? ==> ']' !in ParseSocketTarget(Target(h, port)).value.0
  {
    FirstBracket(h, port);
    hide Print, ParseInt, Last, First;
    assert Target(h, port)[0] == '[';
  }

  lemma BrokenForProxy(h: string, port: Port)
    requires Bracketed(h) && !CleanlyBracketed(h) && First(h, ']') >= 0
    ensures ']' in NormalizedHost(Target(h, port))
  {
    var t, end := Target(h, port), First(h, ']');
    BrokenSplit(h, port);
    assert t[|t| - 1] == Print(port)[|Print(port)| - 1] && IsDigit(t[|t| - 1]);
    assert t[end] == ']';
    hide SplitTarget, Target, Print, First;
    TrimOpenKeeps(t, end);
    var kept := TrimOpen(t);
    assert kept[|kept| - (|t| - end)] == t[end] && kept[|kept| - 1] == t[|t| - 1];
    TrimCloseShrinks(kept);
    hide TrimClose, TrimOpen;
  }

  lemma BrokenSplit(h: string, port: Port)
    requires Bracketed(h) && !CleanlyBracketed(h) && First(h, ']') >= 0
    ensures SplitTarget(Target(h, port)) == None
  {
    FirstBracket(h, port);
    NoPortAfterColon(h, port, First(h, ']') + 2);
    hide Print, ParseUnsigned, Last, First;
    assert Target(h, port)[0] == '[';
  }

  lemma NoPortAfterColon(h: string, port: Port, i: nat)
    requires i <= |h|
    ensures ParseUnsigned(Target(h, port)[i..], 0xFFFF) == None
  {
    var rest := Target(h, port)[i..];
    hide Print;
    assert rest[|h| - i] == ':' && !IsDigit(rest[|h| - i]);
  }

  /** A domain with its brackets closed too early: the proxy recovers nothing, the worker another host and port. */
  lemma BrokenBracketIsLost(port: Port)
    ensures SplitTarget(Target("[a]b", port)) == None
    ensures ParseSocketTarget(Target("[a]b", port)) == Some(("a", 443))
  {
    var h := "[a]b";
    assert First(h[1..], ']') == 1 && First(h, ']') == 2 by { assert h[1..][1..] == "]b" && First("]b", ']') == 0; }
    BrokenSplit(h, port);
    FirstBracket(h, port);
    hide Print, SplitTarget, ParseInt, First;
    var t := Target(h, port);
    assert t[0] == '[' && t[1..2] == "a" && t[3..][0] == 'b';
  }

  /** A domain ending in a closing bracket is looked up by the proxy without it, and connected to with it. */
  lemma HostsCanDiffer(port: Port)
    ensures NormalizedHost(Target("t.me]", port)) == "t.me"
    ensures ParseSocketTarget(Target("t.me]", port)) == Some(("t.me]", port as int))
    ensures !SameHost(Target("t.me]", port))
  {
    var h := "t.me]";
    ProxySplitsExactly(h, port);
    WorkerSplitsExactly(h, port);
    hide SplitTarget, ParseSocketTarget, Target;
    assert TrimOpen(h) == h && h[..4] == "t.me" && TrimClose("t.me") == "t.me";
  }

  /** Every address a CONNECT request carries as numbers, and every domain that trims cleanly, is the same host to
      both. */
  lemma SameHostOnBothSides(a: Address, port: Port)
    requires WellFormed(a) && (a.Domain? ==> TrimsCleanly(a.name))
    ensures SameHost(Target(HostText(a), port))
  {
    SameHostExactly(HostText(a), port);
    match a
    case V4(_, _, _, _) => DottedKeepsEnds(a);
    case V6(gs) => GroupedTrims(gs);
    case Domain(_) =>
  }

  lemma GroupedTrims(gs: seq<(byte, byte)>)
    requires gs != []
    ensures TrimsCleanly("[" + Groups(gs) + "]")
  {
    GroupsHaveNoBracket(gs);
    var inner := Groups(gs);
    hide Groups;
    var h := "[" + inner + "]";
    assert h[|h| - 1] == ']';
    assert forall j :: 0 < j < |h| - 1 ==> h[j] == inner[j - 1];
  }

  lemma DottedKeepsEnds(a: Address)
    requires a.V4?
    ensures TrimsCleanly(HostText(a))
  {
    var h, first, last := HostText(a), Print(a.a as nat), Print(a.d as nat);
    assert IsDigit(first[0]) && IsDigit(last[|last| - 1]);
    hide Print;
    assert h[0] == first[0] && h[|h| - 1] == last[|last| - 1];
  }

  lemma TrimsToInner(inner: string)
    requires inner != "" && inner[0] != '[' && inner[|inner| - 1] != ']'
    ensures TrimClose(TrimOpen("[" + inner + "]")) == inner
  {
    var h := "[" + inner + "]";
    assert h[1..] == inner + "]";
    assert (inner + "]")[0] == inner[0];
    assert TrimOpen(h) == inner + "]";
    assert (inner + "]")[..|inner|] == inner;
    assert TrimClose(inner + "]") == inner;
  }
}
