/** Reading the node's address out of `ifconfig` text
    (`get_ip_via_ifconfig` in dlg/deploy/pawsey/start_dfms_cluster.py).
    Running `ifconfig` is I/O: its output is the parameter `out`. The text is
    a Python 2 byte string, so `str.split()` with no argument splits on the
    six ASCII whitespace characters. */
module Ifconfig {
  import opened Common

  /** The deployment site is not one the heuristic knows. */
  datatype LocationError = UnknownDeployLocation(loc: string)

  /** What the source returns, as a string, when parsing fails. */
  const ParseFailure: string := "None"

  predicate IsSpace(c: char)
  {
    c == ' ' || c == '\t' || c == '\n' || c == '\r' || c as int == 11 || c as int == 12
  }

  /** Length of the leading run of non-whitespace characters. */
  function TokenLength(s: string): (n: nat)
    ensures n <= |s|
    ensures forall i :: 0 <= i < n ==> !IsSpace(s[i])
    ensures n < |s| ==> IsSpace(s[n])
    decreases |s|
  {
    if s == [] || IsSpace(s[0]) then 0 else 1 + TokenLength(s[1..])
  }

  /** `s.split()`: the maximal runs of non-whitespace characters. */
  function Fields(s: string): (toks: seq<string>)
    ensures forall i :: 0 <= i < |toks| ==> toks[i] != "" && forall c :: c in toks[i] ==> !IsSpace(c)
    decreases |s|
  {
    if s == [] then []
    else if IsSpace(s[0]) then Fields(s[1..])
    else
      var n := TokenLength(s);
      [s[..n]] + Fields(s[n..])
  }

  /** Leading whitespace does not change the fields. */
  lemma {:induction false} FieldsSkipSpace(ws: string, s: string)
    requires forall c :: c in ws ==> IsSpace(c)
    ensures Fields(ws + s) == Fields(s)
    decreases |ws|
  {
    if ws == [] {
      assert ws + s == s;
    } else {
      assert (ws + s)[1..] == ws[1..] + s;
      assert ws[0] in ws;
      FieldsSkipSpace(ws[1..], s);
    }
  }

  lemma {:induction false} TokenLengthOf(t: string, rest: string)
    requires forall c :: c in t ==> !IsSpace(c)
    requires rest == [] || IsSpace(rest[0])
    ensures TokenLength(t + rest) == |t|
    decreases |t|
  {
    if t == [] {
      assert t + rest == rest;
    } else {
      assert (t + rest)[1..] == t[1..] + rest;
      assert t[0] in t;
      TokenLengthOf(t[1..], rest);
    }
  }

  /** A whitespace-free, non-empty token followed by whitespace (or the end)
      is the first field. */
  lemma FieldsToken(t: string, rest: string)
    requires t != [] && forall c :: c in t ==> !IsSpace(c)
    requires rest == [] || IsSpace(rest[0])
    ensures Fields(t + rest) == [t] + Fields(rest)
  {
    TokenLengthOf(t, rest);
    assert t[0] in t;
    var s := t + rest;
    assert s[..|t|] == t && s[|t|..] == rest;
  }

  /** The address on one line: the second ':'-separated part of the second
      whitespace-separated field; None when either is missing. */
  function AddressOfLine(line: string): (r: Option<string>)
    ensures r.None? <==> |Fields(line)| < 2 || ':' !in Fields(line)[1]
    ensures r.Some? ==> forall c :: c in r.value ==> c != ':' && !IsSpace(c)
  {
    var toks := Fields(line);
    if |toks| < 2 then None
    else
      var parts := Split(toks[1], ':');
      if |parts| < 2 then None
      else
        SecondPartChars(toks[1]);
        Some(parts[1])
  }

  /** The address on line `ln` of the output, or "None" when the output has
      too few lines or that line does not parse. */
  function AddressAtLine(out: string, ln: nat): (r: string)
    ensures ln >= |Split(out, '\n')| ==> r == ParseFailure
    ensures forall c :: c in r ==> c != ':' && !IsSpace(c)
  {
    var lines := Split(out, '\n');
    if ln >= |lines| then ParseFailure
    else match AddressOfLine(lines[ln])
         case Some(a) => a
         case None => ParseFailure
  }

  /** Which output line holds the address at a deployment site. */
  function SiteLine(loc: string): (r: Option<nat>)
    ensures r.Some? <==> loc == "Pawsey" || loc == "Tianhe2"
    ensures r.Some? ==> r.value < 19
  {
    if loc == "Pawsey" then Some(1)
    else if loc == "Tianhe2" then Some(18)
    else None
  }

  /** get_ip_via_ifconfig(loc): an unknown site is an error; otherwise the
      address read from the site's line of the output, or the string "None"
      when that fails. */
  function IpViaIfconfig(out: string, loc: string): (r: Result<string, LocationError>)
    ensures r.Failure? <==> loc != "Pawsey" && loc != "Tianhe2"
    ensures r.Failure? ==> r.error == UnknownDeployLocation(loc)
    ensures loc == "Pawsey" ==> r == Success(AddressAtLine(out, 1))
    ensures loc == "Tianhe2" ==> r == Success(AddressAtLine(out, 18))
    ensures r.Success? ==> forall c :: c in r.value ==> c != ':' && !IsSpace(c)
  {
    match SiteLine(loc)
    case None => Failure(UnknownDeployLocation(loc))
    case Some(ln) =>
      Success(AddressAtLine(out, ln))
  }

  /** The second ':'-separated part of a whitespace-free token holds
      neither ':' nor whitespace. */
  lemma SecondPartChars(tok: string)
    requires forall c :: c in tok ==> !IsSpace(c)
    ensures |Split(tok, ':')| >= 2 ==> forall c :: c in Split(tok, ':')[1] ==> c != ':' && !IsSpace(c)
  {
    var parts := Split(tok, ':');
    if |parts| >= 2 {
      forall c | c in parts[1] ensures c != ':' && !IsSpace(c) {
        JoinSplit(tok, ':');
        PartInJoin(parts, 1, ':', c);
      }
    }
  }

  /** A character of one part of a join is a character of the join. */
  lemma {:induction false} PartInJoin(xs: seq<string>, k: nat, sep: char, c: char)
    requires k < |xs| && c in xs[k]
    ensures c in Join(xs, sep)
    decreases |xs|
  {
    if |xs| > 1 {
      JoinCons(xs[0], xs[1..], sep);
      assert xs == [xs[0]] + xs[1..];
      if k > 0 {
        PartInJoin(xs[1..], k - 1, sep, c);
      }
    }
  }

  /** The second field of `<indent><iface> <tok><rest>` is `tok`. */
  lemma SecondField(indent: string, iface: string, tok: string, rest: string)
    requires forall c :: c in indent ==> IsSpace(c)
    requires iface != [] && forall c :: c in iface ==> !IsSpace(c)
    requires tok != [] && forall c :: c in tok ==> !IsSpace(c)
    requires rest == [] || IsSpace(rest[0])
    ensures |Fields(indent + iface + [' '] + tok + rest)| >= 2
    ensures Fields(indent + iface + [' '] + tok + rest)[1] == tok
  {
    var afterTok := tok + rest;
    var afterIface := [' '] + afterTok;
    var line := indent + iface + [' '] + tok + rest;
    assert line == indent + (iface + afterIface);
    FieldsSkipSpace(indent, iface + afterIface);
    FieldsToken(iface, afterIface);
    FieldsSkipSpace([' '], afterTok);
    FieldsToken(tok, rest);
  }

  /** `key:address` splits on ':' into the key and the address. */
  lemma SplitKeyAddress(key: string, address: string)
    requires ':' !in key && ':' !in address
    ensures Split(key + ":" + address, ':') == [key, address]
  {
    SplitAt(key, address, ':');
    SplitNoSep(address, ':');
  }

  /** The round trip the heuristic relies on: when the site's line reads
      `<indent><interface> <key>:<address>` followed by whitespace or the end
      of the line (as in `eth0  inet addr:10.128.0.98  Bcast:...`), the
      parse returns exactly that address. */
  lemma AddressRoundTrip(indent: string, iface: string, key: string, address: string, rest: string)
    requires forall c :: c in indent ==> IsSpace(c)
    requires iface != [] && forall c :: c in iface ==> !IsSpace(c)
    requires forall c :: c in key ==> !IsSpace(c) && c != ':'
    requires forall c :: c in address ==> !IsSpace(c) && c != ':'
    requires rest == [] || IsSpace(rest[0])
    ensures AddressOfLine(indent + iface + " " + key + ":" + address + rest) == Some(address)
  {
    var tok := key + ":" + address;
    forall c | c in tok ensures !IsSpace(c) {
      assert c in key || c == ':' || c in address;
    }
    SecondField(indent, iface, tok, rest);
    assert indent + iface + " " + key + ":" + address + rest == indent + iface + [' '] + tok + rest;
    SplitKeyAddress(key, address);
  }

  /** On the Pawsey layout the address comes from the second line. */
  lemma PawseyReadsSecondLine(first: string, second: string, others: seq<string>, address: string)
    requires '\n' !in first && '\n' !in second
    requires forall i :: 0 <= i < |others| ==> '\n' !in others[i]
    requires AddressOfLine(second) == Some(address)
    ensures IpViaIfconfig(Join([first, second] + others, '\n'), "Pawsey") == Success(address)
  {
    var lines := [first, second] + others;
    forall i | 0 <= i < |lines| ensures '\n' !in lines[i] {
      if i >= 2 { assert lines[i] == others[i - 2]; }
    }
    var out := Join(lines, '\n');
    AddressAtJoinedLine(lines, 1);
    assert lines[1] == second;
    assert AddressAtLine(out, 1) == address;
  }

  /** Line `ln` of joined lines is the `ln`-th of them. */
  lemma AddressAtJoinedLine(lines: seq<string>, ln: nat)
    requires ln < |lines|
    requires forall i :: 0 <= i < |lines| ==> '\n' !in lines[i]
    ensures AddressAtLine(Join(lines, '\n'), ln)
      == match AddressOfLine(lines[ln]) case Some(a) => a case None => ParseFailure
  {
    SplitJoin(lines, '\n');
  }
}
