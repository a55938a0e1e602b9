/** ASCII case folding, host names and DNS names. */
module Names {
  import opened Prelude
  import opened Decimal

  function LowerChar(c: char): (r: char)
  {
    if 'A' <= c <= 'Z' then (c as int + 32) as char else c
  }

  /** ASCII lower-casing, as `to_ascii_lowercase` and SQLite's `lower` do it. */
  function Lower(s: string): (r: string)
    ensures |r| == |s|
  {
    seq(|s|, i requires 0 <= i < |s| => LowerChar(s[i]))
  }

  lemma LowerDigits(s: string)
    requires AllDigits(s)
    ensures Lower(s) == s
  {
    assert forall i :: 0 <= i < |s| ==> IsDigit(s[i]);
  }

  // ---------------------------------------------------------------- host names

  /** The characters `str::trim` removes. */
  predicate IsWhitespace(c: char)
  {
    var n := c as int;
    || 0x09 <= n <= 0x0D || n == 0x20 || n == 0x85 || n == 0xA0 || n == 0x1680 || 0x2000 <= n <= 0x200A
    || n == 0x2028 || n == 0x2029 || n == 0x202F || n == 0x205F || n == 0x3000
  }

  function Trim(s: string): (r: string)
  {
    if s == [] then s
    else if IsWhitespace(s[0]) then Trim(s[1..])
    else if IsWhitespace(s[|s| - 1]) then Trim(s[..|s| - 1])
    else s
  }

  predicate HostChar(c: char)
  {
    'a' <= c <= 'z' || '0' <= c <= '9' || c == '-'
  }

  /** `normalize_hostname`. Beyond ASCII the length check counts bytes, but such a name is refused
      anyway. */
  function NormalizeHostname(value: string): (r: Option<string>)
  {
    var hostname := Lower(Trim(value));
    if hostname == [] || |hostname| > 63 then None
    else if hostname[0] == '-' || hostname[|hostname| - 1] == '-' then None
    else if exists i :: 0 <= i < |hostname| && !HostChar(hostname[i]) then None
    else Some(hostname)
  }

  // ---------------------------------------------------------------- candidate names of a device

  const DNS_SUFFIX := ".mesh"

  function DnsName(hostname: string): (name: string)
  {
    hostname + DNS_SUFFIX
  }

  function AfterLastUnderscore(s: string): (r: string)
  {
    if exists i :: 0 <= i < |s| && s[i] == '_' then
      if s[0] == '_' && '_' !in s[1..] then s[1..] else AfterLastUnderscore(s[1..])
    else s
  }

  function DeviceDnsSuffix(deviceId: string): (suffix: string)
  {
    var tail := AfterLastUnderscore(deviceId);
    if |tail| <= 8 then tail else tail[..8]
  }

  /** The k-th name tried: the plain name, then with the device's suffix, then numbered from 2 to 99. */
  function Candidate(hostname: string, deviceId: string, k: nat): (name: string)
  {
    var suffixed := hostname + "-" + DeviceDnsSuffix(deviceId);
    DnsName(if k == 0 then hostname else if k == 1 then suffixed else suffixed + "-" + Digits(k))
  }

  const CANDIDATES := 100

  lemma CandidateLength(hostname: string, deviceId: string, k: nat)
    ensures var plain := |hostname| + 5;
            var suffixed := plain + 1 + |DeviceDnsSuffix(deviceId)|;
            |Candidate(hostname, deviceId, k)|
            == if k == 0 then plain else if k == 1 then suffixed else suffixed + 1 + |Digits(k)|
  {
  }

  /** The candidates are pairwise different, also after case folding. */
  lemma CandidatesDistinct(hostname: string, deviceId: string, j: nat, k: nat)
    requires j < k
    ensures Lower(Candidate(hostname, deviceId, j)) != Lower(Candidate(hostname, deviceId, k))
  {
    CandidateLength(hostname, deviceId, j);
    CandidateLength(hostname, deviceId, k);
    if Lower(Candidate(hostname, deviceId, j)) == Lower(Candidate(hostname, deviceId, k)) {
      var stem := hostname + "-" + DeviceDnsSuffix(deviceId) + "-";
      assert Candidate(hostname, deviceId, j) == stem + Digits(j) + DNS_SUFFIX;
      assert Candidate(hostname, deviceId, k) == stem + Digits(k) + DNS_SUFFIX;
      var n := |Digits(k)|;
      assert Digits(j) == Lower(Candidate(hostname, deviceId, j))[|stem|..|stem| + n] by {
        LowerDigits(Digits(j));
      }
      assert Digits(k) == Lower(Candidate(hostname, deviceId, k))[|stem|..|stem| + n] by {
        LowerDigits(Digits(k));
      }
      DigitsInjective(j, k);
    }
  }

  ghost predicate InMesh(name: string)
  {
    |name| >= |DNS_SUFFIX| && name[|name| - |DNS_SUFFIX|..] == DNS_SUFFIX
  }

  lemma CandidateInMesh(hostname: string, deviceId: string, k: nat)
    ensures InMesh(Candidate(hostname, deviceId, k))
  {
  }

  // ---------------------------------------------------------------- names in queries

  function TrimDots(s: string): (r: string)
  {
    if s != [] && s[|s| - 1] == '.' then TrimDots(s[..|s| - 1]) else s
  }

  function TrimLeadingDots(s: string): (r: string)
  {
    if s != [] && s[0] == '.' then TrimLeadingDots(s[1..]) else s
  }

  function NormalizeName(value: string): (name: string)
  {
    Lower(TrimDots(value))
  }

  function NormalizeSuffix(value: string): (suffix: string)
  {
    Lower(TrimDots(TrimLeadingDots(value)))
  }

  /** A name in the mesh has no trailing dot to lose, so normalizing it only folds its case. */
  lemma NormalizeMeshName(name: string)
    requires InMesh(name)
    ensures NormalizeName(name) == Lower(name)
  {
    assert name[|name| - 1] == DNS_SUFFIX[4];
  }

  /** Upper case and trailing dots in a query make no difference. */
  lemma {:induction false} NormalizeVariant(name: string, query: string, dots: nat)
    requires InMesh(name) && Lower(query) == Lower(name)
    ensures NormalizeName(query + seq(dots, _ => '.')) == Lower(name)
    decreases dots
  {
    var q := query + seq(dots, _ => '.');
    if dots == 0 {
      assert q == query;
      assert LowerChar(query[|query| - 1]) == Lower(query)[|query| - 1] == Lower(name)[|name| - 1];
      assert name[|name| - 1] == DNS_SUFFIX[4] == 'h';
    } else {
      assert q[..|q| - 1] == query + seq(dots - 1, _ => '.');
      NormalizeVariant(name, query, dots - 1);
    }
  }

  // ---------------------------------------------------------------- what these functions are

  /** Equal, or the two cases of one of the 26 letters. */
  predicate SameLetter(c: char, d: char)
  {
    || c == d
    || ('A' <= c <= 'Z' && d as int == c as int + 32)
    || ('A' <= d <= 'Z' && c as int == d as int + 32)
  }

  /** Folding identifies exactly the strings that differ in the case of ASCII letters alone. */
  lemma FoldsCase(s: string, t: string)
    ensures Lower(s) == Lower(t) <==> |s| == |t| && forall i :: 0 <= i < |s| ==> SameLetter(s[i], t[i])
  {
    if |s| == |t| {
      forall i | 0 <= i < |s| ensures Lower(s)[i] == Lower(t)[i] <==> SameLetter(s[i], t[i]) {
      }
      if Lower(s) == Lower(t) {
        assert forall i :: 0 <= i < |s| ==> Lower(s)[i] == Lower(t)[i];
      }
    }
  }

  ghost predicate AllWhitespace(s: string)
  {
    forall i :: 0 <= i < |s| ==> IsWhitespace(s[i])
  }

  lemma WhitespaceIs()
    ensures IsWhitespace(' ') && IsWhitespace('\t') && IsWhitespace('\n') && IsWhitespace('\r')
    ensures forall c: char :: '!' <= c <= '~' ==> !IsWhitespace(c)
  {
  }

  lemma {:induction false} TrimBlank(s: string)
    requires AllWhitespace(s)
    ensures Trim(s) == []
  {
    hide IsWhitespace;
    if s != [] {
      TrimBlank(s[1..]);
    }
  }

  lemma {:induction false} TrimEnd(core: string, after: string)
    requires AllWhitespace(after) && core != [] && !IsWhitespace(core[0]) && !IsWhitespace(core[|core| - 1])
    ensures Trim(core + after) == core
    decreases |after|
  {
    hide IsWhitespace;
    var s, n := core + after, |after| - 1;
    if after == [] {
      assert s == core;
    } else {
      assert s[..|s| - 1] == core + after[..n] && s[|s| - 1] == after[n] && s[0] == core[0];
      TrimEnd(core, after[..n]);
    }
  }

  /** Trimming takes away the white space around a text and nothing of the text. */
  lemma {:induction false} TrimOf(before: string, core: string, after: string)
    requires AllWhitespace(before) && AllWhitespace(after)
    requires core != [] ==> !IsWhitespace(core[0]) && !IsWhitespace(core[|core| - 1])
    ensures Trim(before + core + after) == core
    decreases |before|
  {
    hide IsWhitespace;
    var s := before + core + after;
    if before != [] {
      TrimOf(before[1..], core, after);
      assert s[1..] == before[1..] + core + after && s[0] == before[0];
    } else if core == [] {
      assert s == after;
      TrimBlank(after);
    } else {
      assert s == core + after;
      TrimEnd(core, after);
    }
  }

  predicate Alphanumeric(c: char)
  {
    'a' <= c <= 'z' || 'A' <= c <= 'Z' || '0' <= c <= '9'
  }

  /** 1 to 63 letters, digits and hyphens, with no hyphen at either end. */
  predicate ValidHost(core: string)
  {
    && 1 <= |core| <= 63 && core[0] != '-' && core[|core| - 1] != '-'
    && forall i :: 0 <= i < |core| ==> Alphanumeric(core[i]) || core[i] == '-'
  }

  /** A host name is accepted exactly if, without the white space around it, it is valid; and then as its
      lower-case form. */
  lemma HostnameExactlyWhen(before: string, core: string, after: string)
    requires AllWhitespace(before) && AllWhitespace(after)
    requires core != [] ==> !IsWhitespace(core[0]) && !IsWhitespace(core[|core| - 1])
    ensures NormalizeHostname(before + core + after) == if ValidHost(core) then Some(Lower(core)) else None
  {
    TrimOf(before, core, after);
    hide IsWhitespace, Trim;
    var hostname := Lower(core);
    forall i | 0 <= i < |core| ensures HostChar(hostname[i]) <==> Alphanumeric(core[i]) || core[i] == '-' {
    }
  }

  /** What distinguishes a device: up to eight characters behind the last underscore of its id. */
  lemma {:induction false} SuffixOf(head: string, tail: string)
    requires '_' !in tail
    ensures DeviceDnsSuffix(head + "_" + tail) == tail[..Min(8, |tail|)]
    ensures DeviceDnsSuffix(tail) == tail[..Min(8, |tail|)]
  {
    LastUnderscore(head, tail);
    assert tail[..|tail|] == tail;
  }

  lemma {:induction false} LastUnderscore(head: string, tail: string)
    requires '_' !in tail
    ensures AfterLastUnderscore(head + "_" + tail) == tail && AfterLastUnderscore(tail) == tail
  {
    var s := head + "_" + tail;
    assert s[|head|] == '_';
    if head == [] {
      assert s[1..] == tail;
    } else {
      LastUnderscore(head[1..], tail);
      assert s[1..] == head[1..] + "_" + tail;
      assert s[1..][|head| - 1] == '_';
    }
  }

  /** The names tried for a device, in order. */
  lemma CandidatesAre(hostname: string, head: string, tail: string, k: nat)
    requires '_' !in tail && |tail| <= 8
    ensures var id := head + "_" + tail;
            && Candidate(hostname, id, 0) == hostname + ".mesh"
            && Candidate(hostname, id, 1) == hostname + "-" + tail + ".mesh"
            && (k >= 2 ==> Candidate(hostname, id, k) == hostname + "-" + tail + "-" + Digits(k) + ".mesh")
  {
    SuffixOf(head, tail);
    assert tail[..|tail|] == tail;
  }

  lemma {:induction false} TrimDotsOf(core: string, n: nat)
    requires core != [] ==> core[|core| - 1] != '.'
    ensures TrimDots(core + seq(n, _ => '.')) == core
    decreases n
  {
    var s := core + seq(n, _ => '.');
    if n == 0 {
      assert s == core;
    } else {
      assert s[..|s| - 1] == core + seq(n - 1, _ => '.') && s[|s| - 1] == '.';
      TrimDotsOf(core, n - 1);
    }
  }

  lemma {:induction false} TrimLeadingDotsOf(core: string, n: nat)
    requires core != [] && core[0] != '.'
    ensures TrimLeadingDots(seq(n, _ => '.') + core) == core
    decreases n
  {
    var s := seq(n, _ => '.') + core;
    if n == 0 {
      assert s == core;
    } else {
      assert s[1..] == seq(n - 1, _ => '.') + core && s[0] == '.';
      TrimLeadingDotsOf(core, n - 1);
    }
  }

  /** A suffix may be given with dots around it and in any case. */
  lemma SuffixNormalizes(core: string, before: nat, after: nat)
    requires core != [] && core[0] != '.' && core[|core| - 1] != '.'
    ensures NormalizeSuffix(seq(before, _ => '.') + core + seq(after, _ => '.')) == Lower(core)
    ensures NormalizeName(core + seq(after, _ => '.')) == Lower(core)
  {
    var rest := core + seq(after, _ => '.');
    assert seq(before, _ => '.') + core + seq(after, _ => '.') == seq(before, _ => '.') + rest;
    TrimLeadingDotsOf(rest, before);
    TrimDotsOf(core, after);
  }
}
