/** The development controls: the base URL typed into the text field is
    kept only when it passes `isValidURL`, a case-insensitive regular
    expression anchored at the start only:
      ^(https?://)((label\.)+[a-z]{2,} | (\d{1,3}\.){3}\d{1,3})(:\d+)?(/[-a-z\d%_.~+]*)*
    where a label is `[a-z\d]([a-z\d-]*[a-z\d])*`. The port and path parts
    may match nothing and nothing follows them, so a string is accepted
    exactly when some prefix of it is a scheme followed by a host. */
module Development {
  import opened Wrappers

  // ---------------------------------------------------------------------
  // The language, read off the regular expression
  // ---------------------------------------------------------------------

  predicate IsDigit(c: char) { '0' <= c <= '9' }

  /** `[a-z]` under the case-insensitive flag. */
  predicate IsLetter(c: char) { 'a' <= c <= 'z' || 'A' <= c <= 'Z' }

  predicate IsAlnum(c: char) { IsLetter(c) || IsDigit(c) }

  predicate IsLabelChar(c: char) { IsAlnum(c) || c == '-' }

  /** `[a-z\d]([a-z\d-]*[a-z\d])*`: letters, digits and hyphens, starting
      and ending with a letter or digit. */
  predicate IsLabel(w: string)
  {
    |w| > 0 && IsAlnum(w[0]) && IsAlnum(w[|w| - 1]) &&
    forall i :: 0 <= i < |w| ==> IsLabelChar(w[i])
  }

  /** `(label\.)+`. */
  predicate LabelsDot(w: string)
    decreases |w|
  {
    exists i :: 0 < i < |w| && w[i] == '.' && IsLabel(w[..i]) &&
      (i + 1 == |w| || LabelsDot(w[i + 1..]))
  }

  /** `(label\.)+[a-z]{2,}`. */
  predicate DomainName(w: string)
  {
    exists i :: 0 < i <= |w| - 2 && LabelsDot(w[..i]) &&
      forall k :: i <= k < |w| ==> IsLetter(w[k])
  }

  /** `\d{1,3}`. */
  predicate DigitGroup(w: string)
  {
    1 <= |w| <= 3 && forall k :: 0 <= k < |w| ==> IsDigit(w[k])
  }

  /** `(\d{1,3}\.){3}\d{1,3}`; the groups are not range-checked. */
  predicate Ipv4(w: string)
  {
    exists a, b, c :: 0 < a < b < c < |w| - 1 && w[a] == '.' && w[b] == '.' && w[c] == '.' &&
      DigitGroup(w[..a]) && DigitGroup(w[a + 1..b]) && DigitGroup(w[b + 1..c]) && DigitGroup(w[c + 1..])
  }

  predicate Host(w: string) { DomainName(w) || Ipv4(w) }

  /** The lower-case form of an ASCII letter; other characters unchanged. */
  function Lower(c: char): char
  {
    if 'A' <= c <= 'Z' then (c as int + 32) as char else c
  }

  /** w spells the lower-case pattern, ignoring case. */
  predicate SpellsNoCase(w: string, pattern: string)
  {
    |w| == |pattern| && forall i :: 0 <= i < |w| ==> Lower(w[i]) == pattern[i]
  }

  /** `https?://`. */
  predicate Scheme(w: string)
  {
    SpellsNoCase(w, "http://") || SpellsNoCase(w, "https://")
  }

  /** A match of the whole expression at the start of s. */
  predicate ValidUrl(s: string)
  {
    exists j, k :: 0 <= j <= k <= |s| && Scheme(s[..j]) && Host(s[j..k])
  }

  // ---------------------------------------------------------------------
  // A left-to-right scan deciding the domain part
  // ---------------------------------------------------------------------

  /** The two character classes the scans read runs of. */
  datatype CharClass = Digits | LabelChars

  predicate InClass(cls: CharClass, c: char)
  {
    match cls
    case Digits => IsDigit(c)
    case LabelChars => IsLabelChar(c)
  }

  /** Length of the run of characters of class cls at the start of t. */
  function Run(cls: CharClass, t: string): (n: nat)
    ensures n <= |t|
    ensures forall k :: 0 <= k < n ==> InClass(cls, t[k])
    ensures n < |t| ==> !InClass(cls, t[n])
  {
    if t == [] || !InClass(cls, t[0]) then 0
    else
      var m := Run(cls, t[1..]);
      assert forall k :: 1 <= k < 1 + m ==> t[k] == t[1..][k - 1];
      1 + m
  }

  /** A run ended by a character outside the class, or by the end of the
      string, is the run `Run` measures. */
  lemma {:induction false} RunIs(cls: CharClass, t: string, j: nat)
    requires j <= |t| && forall k :: 0 <= k < j ==> InClass(cls, t[k])
    requires j < |t| ==> !InClass(cls, t[j])
    ensures Run(cls, t) == j
  {
    if j > 0 {
      RunIs(cls, t[1..], j - 1);
    }
  }

  function LabelRun(t: string): (n: nat)
    ensures n <= |t|
    ensures forall k :: 0 <= k < n ==> IsLabelChar(t[k])
    ensures n < |t| ==> !IsLabelChar(t[n])
  {
    Run(LabelChars, t)
  }

  /** A label and a dot, then either two letters or, recursively, the rest
      of a domain name. */
  function DomainScan(t: string): bool
    decreases |t|
  {
    var n := LabelRun(t);
    if n == 0 || n == |t| || t[n] != '.' || !IsAlnum(t[0]) || !IsAlnum(t[n - 1]) then false
    else
      var rest := t[n + 1..];
      (|rest| >= 2 && IsLetter(rest[0]) && IsLetter(rest[1])) || DomainScan(rest)
  }

  /** t starts with a run of `label.` groups ending at i, followed by two
      letters. */
  predicate DomainAt(t: string, i: int)
  {
    0 < i && i + 2 <= |t| && LabelsDot(t[..i]) && IsLetter(t[i]) && IsLetter(t[i + 1])
  }

  /** A label followed by a dot is exactly the label-character run. */
  lemma LabelIsRun(t: string, j: nat)
    requires j < |t| && t[j] == '.' && IsLabel(t[..j])
    ensures j == LabelRun(t)
  {
    assert forall k :: 0 <= k < j ==> t[..j][k] == t[k];
    RunIs(LabelChars, t, j);
  }

  lemma LabelsDotCons(t: string, n: nat, m: nat)
    requires n < m <= |t| && t[n] == '.' && IsLabel(t[..n])
    requires n + 1 == m || LabelsDot(t[n + 1..m])
    ensures LabelsDot(t[..m])
  {
    var w := t[..m];
    assert w[..n] == t[..n];
    assert n + 1 < m ==> w[n + 1..] == t[n + 1..m];
  }

  lemma DomainAtShift(t: string, n: nat, i: int)
    requires n < |t| && t[n] == '.' && IsLabel(t[..n])
    requires DomainAt(t[n + 1..], i)
    ensures DomainAt(t, n + 1 + i)
  {
    assert t[n + 1..][..i] == t[n + 1..n + 1 + i];
    LabelsDotCons(t, n, n + 1 + i);
  }

  lemma {:induction false} DomainScanSound(t: string)
    requires DomainScan(t)
    ensures exists i :: DomainAt(t, i)
    decreases |t|
  {
    var n := LabelRun(t);
    var rest := t[n + 1..];
    assert IsLabel(t[..n]);
    if |rest| >= 2 && IsLetter(rest[0]) && IsLetter(rest[1]) {
      LabelsDotCons(t, n, n + 1);
      assert DomainAt(t, n + 1);
    } else {
      DomainScanSound(rest);
      var i :| DomainAt(rest, i);
      DomainAtShift(t, n, i);
    }
  }

  /** The first `label.` of a run of them is the label-character run. */
  lemma LabelsDotFirst(w: string)
    requires LabelsDot(w)
    ensures 0 < LabelRun(w) < |w| && w[LabelRun(w)] == '.' && IsLabel(w[..LabelRun(w)])
    ensures LabelRun(w) + 1 == |w| || LabelsDot(w[LabelRun(w) + 1..])
  {
    var j :| 0 < j < |w| && w[j] == '.' && IsLabel(w[..j]) && (j + 1 == |w| || LabelsDot(w[j + 1..]));
    LabelIsRun(w, j);
  }

  /** The first `label.` of a domain prefix is the label-character run. */
  lemma DomainAtFirstLabel(t: string, i: int)
    requires DomainAt(t, i)
    ensures 0 < LabelRun(t) < i && t[LabelRun(t)] == '.'
    ensures IsAlnum(t[0]) && IsAlnum(t[LabelRun(t) - 1])
    ensures LabelRun(t) == LabelRun(t[..i])
  {
    var w := t[..i];
    LabelsDotFirst(w);
    var j := LabelRun(w);
    assert forall k :: 0 <= k <= j ==> w[k] == t[k];
    RunIs(LabelChars, t, j);
    assert w[..j][0] == t[0] && w[..j][j - 1] == t[j - 1];
  }

  /** After the first `label.`, the rest of a domain prefix follows. */
  lemma DomainAtRest(t: string, i: int)
    requires DomainAt(t, i) && LabelRun(t) + 1 < i
    ensures DomainAt(t[LabelRun(t) + 1..], i - LabelRun(t) - 1)
  {
    var j := LabelRun(t);
    DomainAtFirstLabel(t, i);
    var w := t[..i];
    LabelsDotFirst(w);
    assert LabelRun(w) == j && j + 1 < |w|;
    assert LabelsDot(w[j + 1..]);
    DomainAtTail(t, j, i);
  }

  lemma DomainAtTail(t: string, j: nat, i: int)
    requires j + 1 < i && i + 2 <= |t| && IsLetter(t[i]) && IsLetter(t[i + 1])
    requires LabelsDot(t[..i][j + 1..])
    ensures DomainAt(t[j + 1..], i - j - 1)
  {
    assert t[..i][j + 1..] == t[j + 1..][..i - j - 1];
    assert t[j + 1..][i - j - 1] == t[i] && t[j + 1..][i - j] == t[i + 1];
  }

  lemma {:induction false} DomainScanComplete(t: string, i: int)
    requires DomainAt(t, i)
    ensures DomainScan(t)
    decreases |t|
  {
    DomainAtFirstLabel(t, i);
    var j := LabelRun(t);
    if j + 1 < i {
      DomainAtRest(t, i);
      DomainScanComplete(t[j + 1..], i - j - 1);
    }
  }

  lemma DomainNameGivesAt(t: string, k: int)
    requires 0 <= k <= |t| && DomainName(t[..k])
    ensures exists i :: DomainAt(t, i)
  {
    var w := t[..k];
    var i :| 0 < i <= |w| - 2 && LabelsDot(w[..i]) && forall m :: i <= m < |w| ==> IsLetter(w[m]);
    assert w[..i] == t[..i];
    assert w[i] == t[i] && w[i + 1] == t[i + 1];
    assert DomainAt(t, i);
  }

  lemma DomainAtGivesName(t: string, i: int)
    requires DomainAt(t, i)
    ensures DomainName(t[..i + 2])
  {
    var w := t[..i + 2];
    assert w[..i] == t[..i];
    assert forall m :: i <= m < |w| ==> IsLetter(w[m]);
  }

  /** t starts with a host name exactly when some prefix of it is a domain
      name. */
  lemma DomainPrefixIff(t: string)
    ensures (exists k :: 0 <= k <= |t| && DomainName(t[..k])) <==> exists i :: DomainAt(t, i)
  {
    if exists k :: 0 <= k <= |t| && DomainName(t[..k]) {
      var k :| 0 <= k <= |t| && DomainName(t[..k]);
      DomainNameGivesAt(t, k);
    }
    if exists i :: DomainAt(t, i) {
      var i :| DomainAt(t, i);
      DomainAtGivesName(t, i);
    }
  }

  // ---------------------------------------------------------------------
  // A left-to-right scan deciding the address part
  // ---------------------------------------------------------------------

  /** `(\d{1,3}\.)` n times, then a digit (a prefix match needs no more). */
  function GroupsScan(t: string, n: nat): bool
    decreases n
  {
    if n == 0 then |t| >= 1 && IsDigit(t[0])
    else
      var d := Run(Digits, t);
      1 <= d <= 3 && d < |t| && t[d] == '.' && GroupsScan(t[d + 1..], n - 1)
  }

  /** t starts with three dot-terminated groups at a, b, c and a digit. */
  predicate IpAt(t: string, a: int, b: int, c: int)
  {
    0 < a < b < c && c + 1 < |t| && t[a] == '.' && t[b] == '.' && t[c] == '.' &&
    DigitGroup(t[..a]) && DigitGroup(t[a + 1..b]) && DigitGroup(t[b + 1..c]) && IsDigit(t[c + 1])
  }

  /** One dot-terminated group at the front, then the rest. */
  lemma GroupFront(t: string, a: nat)
    requires a < |t| && t[a] == '.' && DigitGroup(t[..a])
    ensures Run(Digits, t) == a
  {
    assert forall k :: 0 <= k < a ==> t[..a][k] == t[k];
    RunIs(Digits, t, a);
  }

  /** A scan of n > 0 groups starts with a dot-terminated group. */
  lemma GroupsUnfold(t: string, n: nat) returns (d: nat)
    requires 0 < n && GroupsScan(t, n)
    ensures d < |t| && t[d] == '.' && DigitGroup(t[..d]) && GroupsScan(t[d + 1..], n - 1)
  {
    d := Run(Digits, t);
    assert forall k :: 0 <= k < d ==> t[..d][k] == t[k];
  }

  /** Three dot-terminated groups read one after the other, then a digit,
      are an address at the front of t. */
  lemma IpFromGroups(t: string, a: nat, t1: string, b1: nat, t2: string, c1: nat)
    requires a < |t| && t[a] == '.' && DigitGroup(t[..a]) && t1 == t[a + 1..]
    requires b1 < |t1| && t1[b1] == '.' && DigitGroup(t1[..b1]) && t2 == t1[b1 + 1..]
    requires c1 + 1 < |t2| && t2[c1] == '.' && DigitGroup(t2[..c1]) && IsDigit(t2[c1 + 1])
    ensures IpAt(t, a, a + 1 + b1, a + 2 + b1 + c1)
  {
    var b := a + 1 + b1;
    var c := b + 1 + c1;
    assert t1[..b1] == t[a + 1..b];
    assert t2 == t[b + 1..];
    assert t2[..c1] == t[b + 1..c];
  }

  /** A scan of two groups reads two dot-terminated groups one after the
      other and then a digit. */
  lemma GroupsUnfoldTwo(t: string) returns (b: nat, c: nat)
    requires GroupsScan(t, 2)
    ensures b < |t| && t[b] == '.' && DigitGroup(t[..b])
    ensures c + 1 < |t[b + 1..]| && t[b + 1..][c] == '.'
    ensures DigitGroup(t[b + 1..][..c]) && IsDigit(t[b + 1..][c + 1])
  {
    b := GroupsUnfold(t, 2);
    c := GroupsUnfold(t[b + 1..], 1);
  }

  /** A scan of three groups reads three dot-terminated groups one after
      the other and then a digit. */
  lemma GroupsUnfoldAll(t: string) returns (a: nat, b1: nat, c1: nat)
    requires GroupsScan(t, 3)
    ensures a < |t| && t[a] == '.' && DigitGroup(t[..a])
    ensures b1 < |t[a + 1..]| && t[a + 1..][b1] == '.' && DigitGroup(t[a + 1..][..b1])
    ensures c1 + 1 < |t[a + 1..][b1 + 1..]| && t[a + 1..][b1 + 1..][c1] == '.'
    ensures DigitGroup(t[a + 1..][b1 + 1..][..c1]) && IsDigit(t[a + 1..][b1 + 1..][c1 + 1])
  {
    a := GroupsUnfold(t, 3);
    b1, c1 := GroupsUnfoldTwo(t[a + 1..]);
  }

  /** Every successful address scan has read an address. */
  lemma IpScanSound(t: string)
    requires GroupsScan(t, 3)
    ensures exists a, b, c :: IpAt(t, a, b, c)
  {
    var a, b1, c1 := GroupsUnfoldAll(t);
    IpFromGroups(t, a, t[a + 1..], b1, t[a + 1..][b1 + 1..], c1);
  }

  /** A dot-terminated group in front of a scan of n - 1 more groups. */
  lemma GroupsStep(t: string, a: nat, n: nat)
    requires 0 < n && a < |t| && t[a] == '.' && DigitGroup(t[..a])
    requires GroupsScan(t[a + 1..], n - 1)
    ensures GroupsScan(t, n)
  {
    GroupFront(t, a);
  }

  /** The same step, for the groups after position a of t. */
  lemma GroupsStepAt(t: string, a: int, b: int, n: nat)
    requires 0 < n && -1 <= a && a + 1 < b < |t| && t[b] == '.' && DigitGroup(t[a + 1..b])
    requires GroupsScan(t[b + 1..], n - 1)
    ensures GroupsScan(t[a + 1..], n)
  {
    var u := t[a + 1..];
    assert u[b - a..] == t[b + 1..] && u[..b - a - 1] == t[a + 1..b];
    GroupsStep(u, b - a - 1, n);
  }

  /** Every address at the front of t passes the address scan. */
  lemma IpScanComplete(t: string, a: int, b: int, c: int)
    requires IpAt(t, a, b, c)
    ensures GroupsScan(t, 3)
  {
    assert GroupsScan(t[c + 1..], 0);
    GroupsStepAt(t, b, c, 1);
    GroupsStepAt(t, a, b, 2);
    assert t[..a] == t[0..a];
    GroupsStepAt(t, -1, a, 3);
    assert t[0..] == t;
  }

  /** The groups of an address at the front of t are groups of t. */
  lemma Ipv4GivesAt(t: string, k: int, a: int, b: int, c: int)
    requires 0 <= k <= |t|
    requires 0 < a < b < c < k - 1 && t[..k][a] == '.' && t[..k][b] == '.' && t[..k][c] == '.'
    requires DigitGroup(t[..k][..a]) && DigitGroup(t[..k][a + 1..b]) && DigitGroup(t[..k][b + 1..c])
    requires DigitGroup(t[..k][c + 1..])
    ensures IpAt(t, a, b, c)
  {
    assert t[..k][..a] == t[..a];
    assert t[..k][a + 1..b] == t[a + 1..b];
    assert t[..k][b + 1..c] == t[b + 1..c];
    assert t[..k][c + 1..][0] == t[c + 1];
  }

  /** Slices of a prefix are slices of the whole. */
  lemma PrefixSlices(t: string, k: int, i: int, j: int)
    requires 0 <= i <= j <= k <= |t|
    ensures t[..k][..j] == t[..j] && t[..k][i..j] == t[i..j]
  {
  }

  /** The address found at the front of t, read as a prefix of t. */
  lemma IpAtGivesIpv4(t: string, a: int, b: int, c: int)
    requires IpAt(t, a, b, c)
    ensures Ipv4(t[..c + 2])
  {
    var w := t[..c + 2];
    PrefixSlices(t, c + 2, 0, a);
    PrefixSlices(t, c + 2, a + 1, b);
    PrefixSlices(t, c + 2, b + 1, c);
    assert w[c + 1..] == [t[c + 1]];
    assert 0 < a < b < c < |w| - 1 && w[a] == '.' && w[b] == '.' && w[c] == '.';
    assert DigitGroup(w[..a]) && DigitGroup(w[a + 1..b]) && DigitGroup(w[b + 1..c]) && DigitGroup(w[c + 1..]);
  }

  /** t starts with an address exactly when some prefix of it is one. */
  lemma IpPrefixIff(t: string)
    ensures (exists k :: 0 <= k <= |t| && Ipv4(t[..k])) <==> exists a, b, c :: IpAt(t, a, b, c)
  {
    if exists k :: 0 <= k <= |t| && Ipv4(t[..k]) {
      var k :| 0 <= k <= |t| && Ipv4(t[..k]);
      var a, b, c :| 0 < a < b < c < |t[..k]| - 1 &&
        t[..k][a] == '.' && t[..k][b] == '.' && t[..k][c] == '.' &&
        DigitGroup(t[..k][..a]) && DigitGroup(t[..k][a + 1..b]) && DigitGroup(t[..k][b + 1..c]) &&
        DigitGroup(t[..k][c + 1..]);
      Ipv4GivesAt(t, k, a, b, c);
    }
    if exists a, b, c :: IpAt(t, a, b, c) {
      var a, b, c :| IpAt(t, a, b, c);
      IpAtGivesIpv4(t, a, b, c);
    }
  }

  // ---------------------------------------------------------------------
  // isValidURL and the base URL field
  // ---------------------------------------------------------------------

  /** The length of the scheme at the start of s: 8 for `https://`, 7 for
      `http://`, 0 when there is none. */
  function SchemeLength(s: string): (j: nat)
    ensures j == 0 || j == 7 || j == 8
    ensures j <= |s|
    ensures j > 0 ==> Scheme(s[..j])
  {
    if |s| >= 8 && SpellsNoCase(s[..8], "https://") then 8
    else if |s| >= 7 && SpellsNoCase(s[..7], "http://") then 7
    else 0
  }

  /** Every prefix that is a scheme is the one `SchemeLength` finds; in
      particular it is 0 only when no prefix is a scheme. */
  lemma SchemeUnique(s: string, i: int)
    requires 0 <= i <= |s| && Scheme(s[..i])
    ensures i > 0 && i == SchemeLength(s)
  {
    if i == 7 && |s| >= 8 {
      assert Lower(s[..7][4]) == ':' && s[..7][4] == s[..8][4];
    }
  }

  /** The two scans decide whether t starts with a host. */
  lemma HostPrefixScan(t: string)
    ensures (exists k :: 0 <= k <= |t| && Host(t[..k])) <==> DomainScan(t) || GroupsScan(t, 3)
  {
    DomainPrefixIff(t);
    IpPrefixIff(t);
    if DomainScan(t) {
      DomainScanSound(t);
    }
    if exists i :: DomainAt(t, i) {
      var i :| DomainAt(t, i);
      DomainScanComplete(t, i);
    }
    if GroupsScan(t, 3) {
      IpScanSound(t);
    }
    if exists a, b, c :: IpAt(t, a, b, c) {
      var a, b, c :| IpAt(t, a, b, c);
      IpScanComplete(t, a, b, c);
    }
  }

  /** A scheme and a host found by the scans are a match. */
  lemma ScanGivesValid(s: string)
    requires SchemeLength(s) > 0
    requires DomainScan(s[SchemeLength(s)..]) || GroupsScan(s[SchemeLength(s)..], 3)
    ensures ValidUrl(s)
  {
    var j := SchemeLength(s);
    var t := s[j..];
    HostPrefixScan(t);
    var k :| 0 <= k <= |t| && Host(t[..k]);
    assert t[..k] == s[j..j + k];
    assert Scheme(s[..j]) && Host(s[j..j + k]);
  }

  /** A match starts with the scheme the scan finds, and the host scans
      succeed where it ends. */
  lemma ValidGivesScan(s: string)
    requires ValidUrl(s)
    ensures SchemeLength(s) > 0
    ensures DomainScan(s[SchemeLength(s)..]) || GroupsScan(s[SchemeLength(s)..], 3)
  {
    var j', k :| 0 <= j' <= k <= |s| && Scheme(s[..j']) && Host(s[j'..k]);
    SchemeUnique(s, j');
    var j := SchemeLength(s);
    var t := s[j..];
    assert t[..k - j] == s[j..k];
    assert Host(t[..k - j]);
    HostPrefixScan(t);
  }

  /** The scheme and the host scans together decide the expression. */
  lemma ValidUrlScan(s: string)
    ensures ValidUrl(s) <==>
      SchemeLength(s) > 0 && (DomainScan(s[SchemeLength(s)..]) || GroupsScan(s[SchemeLength(s)..], 3))
  {
    if ValidUrl(s) {
      ValidGivesScan(s);
    }
    if SchemeLength(s) > 0 && (DomainScan(s[SchemeLength(s)..]) || GroupsScan(s[SchemeLength(s)..], 3)) {
      ScanGivesValid(s);
    }
  }

  /** `isValidURL(str)`: the scheme, then a host scanned from where the
      scheme ends. */
  function IsValidUrl(s: string): (r: bool)
    ensures r <==> ValidUrl(s)
  {
    ValidUrlScan(s);
    var j := SchemeLength(s);
    j > 0 && (DomainScan(s[j..]) || GroupsScan(s[j..], 3))
  }

  /** Only the start is anchored: whatever follows an accepted string, the
      result is accepted. */
  lemma SuffixClosed(s: string, rest: string)
    requires ValidUrl(s)
    ensures ValidUrl(s + rest)
  {
    var j, k :| 0 <= j <= k <= |s| && Scheme(s[..j]) && Host(s[j..k]);
    var u := s + rest;
    assert u[..j] == s[..j];
    assert u[j..k] == s[j..k];
    assert Scheme(u[..j]) && Host(u[j..k]);
  }

  /** An accepted string starts with `http://` or `https://` in any case. */
  lemma SchemeRequired(s: string)
    requires ValidUrl(s)
    ensures (|s| >= 7 && SpellsNoCase(s[..7], "http://")) || (|s| >= 8 && SpellsNoCase(s[..8], "https://"))
  {
    var j, k :| 0 <= j <= k <= |s| && Scheme(s[..j]) && Host(s[j..k]);
  }

  /** A host needs a dot: without one nothing is accepted. */
  lemma DotlessRejected(s: string)
    requires forall i :: 0 <= i < |s| ==> s[i] != '.'
    ensures !ValidUrl(s)
  {
    forall j, k | 0 <= j <= k <= |s| ensures !Host(s[j..k]) {
      var w := s[j..k];
      assert forall i :: 0 <= i < |w| ==> w[i] != '.';
      forall i | 0 < i <= |w| ensures !LabelsDot(w[..i]) {
        assert forall m :: 0 <= m < i ==> w[..i][m] != '.';
      }
    }
  }

  /** A string starting with `http://` has the seven-character scheme: the
      `s` of `https` cannot stand where the colon is. */
  lemma HttpScheme(s: string)
    requires |s| >= 7 && s[..7] == "http://"
    ensures SchemeLength(s) == 7
  {
    var w := s[..7];
    assert w[0] == 'h' && w[1] == 't' && w[2] == 't' && w[3] == 'p';
    assert w[4] == ':' && w[5] == '/' && w[6] == '/';
    assert SpellsNoCase(w, "http://");
    if |s| >= 8 {
      assert s[..8][4] == ':';
    }
  }

  /** Neither host scan accepts `localhost:8080`: the label run stops at the
      colon and no digit starts it. */
  lemma LocalhostHost(h: string)
    requires h == "localhost:8080"
    ensures !DomainScan(h) && !GroupsScan(h, 3)
  {
    assert h[0] == 'l' && h[1] == 'o' && h[2] == 'c' && h[3] == 'a' && h[4] == 'l';
    assert h[5] == 'h' && h[6] == 'o' && h[7] == 's' && h[8] == 't' && h[9] == ':';
    RunIs(LabelChars, h, 9);
  }

  /** `localhost` has no dot and is rejected. */
  lemma LocalhostRejected(s: string)
    requires s == "http://localhost:8080"
    ensures !IsValidUrl(s)
  {
    assert s[..7] == "http://" by {
      assert s[0] == 'h' && s[1] == 't' && s[2] == 't' && s[3] == 'p';
      assert s[4] == ':' && s[5] == '/' && s[6] == '/';
    }
    HttpScheme(s);
    LocalhostHost(s[7..]);
  }

  /** `999.999.999.999` is an address: three groups ended by dots, then a digit. */
  lemma NinesAddress(h: string)
    requires h == "999.999.999.999"
    ensures IpAt(h, 3, 7, 11)
  {
    assert h[..3] == "999" && h[4..7] == "999" && h[8..11] == "999";
  }

  /** Address groups are not range-checked. */
  lemma UnrangedAddressAccepted(s: string)
    requires s == "http://999.999.999.999"
    ensures IsValidUrl(s)
  {
    assert s[..7] == "http://" by {
      assert s[0] == 'h' && s[1] == 't' && s[2] == 't' && s[3] == 'p';
      assert s[4] == ':' && s[5] == '/' && s[6] == '/';
    }
    HttpScheme(s);
    NinesAddress(s[7..]);
    IpScanComplete(s[7..], 3, 7, 11);
  }

  /** The base URL the developer controls keep; `None` stands for null, which
      switches to the mock server. */
  class DevControls {
    var baseUrl: Option<string>

    /** `useLocalStorage('BaseURL', null)`: the URL an earlier session
        stored, already parsed, or null when none is stored. */
    constructor (stored: Option<string>)
      ensures baseUrl == stored
    {
      baseUrl := stored;
    }

    /** `handleBaseUrlChange`: an invalid entry clears the base URL, a valid
        one is stored as typed. */
    method HandleBaseUrlChange(value: string)
      modifies this
      ensures !ValidUrl(value) ==> baseUrl.None?
      ensures ValidUrl(value) ==> baseUrl == Some(value)
    {
      if !IsValidUrl(value) {
        baseUrl := None;
        return;
      }
      baseUrl := Some(value);
    }
  }
}
