/** Names for the files of a batch: safe base names, and the flat allocation that keeps them apart. */
module Naming {
  /** What the Unicode tables do to a name: composition, case folding and upper case. */
  datatype Text = Text(nfc: string -> string, fold: string -> string, upper: string -> string)

  datatype Candidate = Candidate(key: string, provenance: string, basename: string)

  const MAX_LENGTH := 240

  /** The names of devices: four, and two kinds with a number from one to nine. */
  predicate IsReserved(name: string) {
    || name in {"CON", "PRN", "AUX", "NUL"}
    || (|name| == 4 && name[..3] in {"COM", "LPT"} && name[3] in "123456789")
  }

  function Key(t: Text, name: string): string { t.fold(t.nfc(name)) }

  // -------------------------------------------------------------- safe names

  predicate IsInvalid(c: char) {
    c in {'<', '>', ':', '"', '/', '\\', '|', '?', '*'} || c < ' '
  }

  function Each(s: string, f: char -> char): (r: string)
    ensures |r| == |s| && forall i :: 0 <= i < |s| ==> r[i] == f(s[i])
  {
    seq(|s|, i requires 0 <= i < |s| => f(s[i]))
  }

  function AfterLastSlash(s: string): string {
    if s == [] || s[|s| - 1] == '/' then [] else AfterLastSlash(s[..|s| - 1]) + [s[|s| - 1]]
  }

  function TrimRight(s: string): (r: string)
    ensures r <= s && (r != [] ==> r[|r| - 1] !in {' ', '.'})
  {
    if s != [] && s[|s| - 1] in {' ', '.'} then TrimRight(s[..|s| - 1]) else s
  }

  function LastDot(s: string): (i: int)
    ensures -1 <= i < |s| && (i >= 0 ==> s[i] == '.')
  {
    if s == [] then -1 else if s[|s| - 1] == '.' then |s| - 1 else LastDot(s[..|s| - 1])
  }

  /** A leading or a trailing dot does not begin a suffix. */
  function Suffix(name: string): (suffix: string)
    ensures |suffix| != 1 && |suffix| <= |name| && (name != [] ==> |suffix| < |name|)
    ensures name[|name| - |suffix|..] == suffix
  {
    var i := LastDot(name);
    if 0 < i < |name| - 1 then name[i..] else []
  }

  function Stem(name: string): string { name[..|name| - |Suffix(name)|] }

  function Max(a: int, b: int): int { if a < b then b else a }

  function Cut(s: string, n: nat): string { if |s| <= n then s else s[..n] }

  function Truncated(name: string): string {
    if |name| <= MAX_LENGTH then name
    else if Suffix(name) == [] then name[..MAX_LENGTH]
    else Cut(Stem(name), Max(1, MAX_LENGTH - |Suffix(name)|)) + Suffix(name)
  }

  /** The last path component without invalid characters and without trailing dots and spaces. */
  function Trimmed(t: Text, name: string): string {
    var last := AfterLastSlash(t.nfc(Each(name, c => if c == '\\' then '/' else c)));
    TrimRight(Each(last, c => if IsInvalid(c) then '_' else c))
  }

  /** The name before it is cut to length. */
  function Cleaned(t: Text, name: string): string {
    var named := if Trimmed(t, name) == [] then "_unnamed" else Trimmed(t, name);
    if IsReserved(t.upper(Stem(named))) then "_" + named else named
  }

  function SafeBasename(t: Text, name: string): string { Truncated(Cleaned(t, name)) }

  predicate IsComponent(name: string) {
    name != "" && name != "." && name != ".." && forall i :: 0 <= i < |name| ==> !IsInvalid(name[i])
  }

  lemma TrimmedIsComponent(last: string)
    ensures var trimmed := TrimRight(Each(last, c => if IsInvalid(c) then '_' else c));
            trimmed != [] ==> IsComponent(trimmed)
  {
    var each := Each(last, c => if IsInvalid(c) then '_' else c);
    var trimmed := TrimRight(each);
    forall i | 0 <= i < |trimmed| ensures !IsInvalid(trimmed[i]) {
      assert trimmed[i] == each[i];
    }
  }

  lemma UnderscoreIsComponent(name: string)
    requires IsComponent(name)
    ensures IsComponent("_" + name)
  {
    assert forall i :: 0 <= i < |name| ==> ("_" + name)[i + 1] == name[i];
  }

  lemma CleanedIsComponent(t: Text, name: string)
    ensures IsComponent(Cleaned(t, name))
  {
    TrimmedIsComponent(AfterLastSlash(t.nfc(Each(name, c => if c == '\\' then '/' else c))));
    var named := if Trimmed(t, name) == [] then "_unnamed" else Trimmed(t, name);
    assert IsComponent(named);
    UnderscoreIsComponent(named);
  }

  /** Cutting keeps a name usable. */
  lemma TruncatedIsComponent(name: string)
    requires IsComponent(name)
    ensures IsComponent(Truncated(name))
  {
    var cut := Truncated(name);
    if |name| > MAX_LENGTH {
      var n := |name| - |Suffix(name)|;
      var stem := Cut(Stem(name), Max(1, MAX_LENGTH - |Suffix(name)|));
      forall i | 0 <= i < |cut| ensures !IsInvalid(cut[i]) {
        if Suffix(name) != [] && i >= |stem| {
          assert cut[i] == name[n + (i - |stem|)];
        } else {
          assert cut[i] == name[i];
        }
      }
    }
  }

  /** A safe name is never empty, `.` or `..`, and has no character a path could trip over. */
  lemma SafeIsComponent(t: Text, name: string)
    ensures IsComponent(SafeBasename(t, name))
  {
    CleanedIsComponent(t, name);
    TruncatedIsComponent(Cleaned(t, name));
  }

  /** Cutting keeps the limit exactly when the suffix leaves room for a stem. */
  lemma LengthBoundedIff(name: string)
    ensures |Truncated(name)| <= 240 <==> |name| <= 240 || |Suffix(name)| < 240
  {
  }

  lemma {:induction false} NoSlashToCut(s: string)
    requires '/' !in s
    ensures AfterLastSlash(s) == s
  {
    if s != [] {
      NoSlashToCut(s[..|s| - 1]);
    }
  }

  /** A usable name that the tables leave alone and no device is called after is left as it is. */
  lemma CleanStays(t: Text, name: string)
    requires IsComponent(name) && name[|name| - 1] !in {' ', '.'}
    requires t.nfc(name) == name && !IsReserved(t.upper(Stem(name)))
    ensures Cleaned(t, name) == name
  {
    assert Each(name, c => if c == '\\' then '/' else c) == name;
    NoSlashToCut(name);
    assert Each(name, c => if IsInvalid(c) then '_' else c) == name;
    assert TrimRight(name) == name;
  }

  function Repeated(c: char, n: nat): (s: string)
    ensures |s| == n && forall i :: 0 <= i < n ==> s[i] == c
  {
    seq(n, _ => c)
  }

  /** One character and a suffix of `n`. */
  function LongSuffix(n: nat): string
    requires n >= 2
  {
    "x." + Repeated('a', n - 1)
  }

  lemma {:induction false} DotIsLast(s: string, i: nat)
    requires i < |s| && s[i] == '.' && forall j :: i < j < |s| ==> s[j] != '.'
    ensures LastDot(s) == i
  {
    if i < |s| - 1 {
      DotIsLast(s[..|s| - 1], i);
    }
  }

  lemma SuffixIsLong(n: nat)
    requires n >= 2
    ensures |Suffix(LongSuffix(n))| == n && Stem(LongSuffix(n)) == "x"
  {
    DotIsLast(LongSuffix(n), 1);
  }

  /** A name of 241 characters that is not cut, whatever the tables do elsewhere. */
  lemma LongSuffixIsNotCut(t: Text)
    requires t.nfc(LongSuffix(240)) == LongSuffix(240) && t.upper("x") == "X"
    ensures |SafeBasename(t, LongSuffix(240))| == 240 + 1
  {
    var name := LongSuffix(MAX_LENGTH);
    SuffixIsLong(MAX_LENGTH);
    assert forall i :: 0 <= i < |name| ==> name[i] in {'x', '.', 'a'};
    CleanStays(t, name);
  }

  // ------------------------------------------------ what a safe name keeps of a name

  /** The suffix is what follows the last dot, dot included, if there is something on both sides of it. */
  lemma SuffixIs(stem: string, extension: string)
    requires '.' !in extension
    ensures stem != "" && extension != "" ==> Suffix(stem + "." + extension) == "." + extension
    ensures stem == "" || extension == "" ==> Suffix(stem + "." + extension) == ""
    ensures Suffix(extension) == ""
  {
    var name := stem + "." + extension;
    DotIsLast(name, |stem|);
    NoDot(extension);
    assert name[|stem|..] == "." + extension;
  }

  lemma {:induction false} NoDot(s: string)
    requires '.' !in s
    ensures LastDot(s) == -1
  {
    if s != [] {
      NoDot(s[..|s| - 1]);
    }
  }

  /** A name that is too long loses the end of its stem and keeps the rest. */
  lemma TruncatedKeepsEnds(name: string)
    ensures |name| <= 240 ==> Truncated(name) == name
    ensures |name| > 240 ==>
      exists k :: 0 < k <= |name| - |Suffix(name)| && Truncated(name) == name[..k] + Suffix(name)
                  && (k == 1 || k + |Suffix(name)| == 240)
  {
    var suffix := Suffix(name);
    if |name| > 240 {
      var k := if suffix == "" then 240 else if |suffix| >= 240 then 1 else 240 - |suffix|;
      if suffix == "" {
        assert name[..240] + "" == name[..240];
      } else {
        var room := if k < |Stem(name)| then k else |Stem(name)|;
        assert Stem(name)[..room] == name[..room];
        assert Truncated(name) == name[..room] + suffix;
      }
    }
  }

  lemma {:induction false} LastOfPath(path: string, part: string)
    requires '/' !in part
    ensures AfterLastSlash(path + "/" + part) == part
  {
    if part == "" {
      assert (path + "/" + part)[|path|] == '/';
    } else {
      var n := |part| - 1;
      LastOfPath(path, part[..n]);
      assert (path + "/" + part)[..|path + "/" + part| - 1] == path + "/" + part[..n];
      assert part[..n] + [part[n]] == part;
    }
  }

  function Slashed(name: string): string { Each(name, c => if c == '\\' then '/' else c) }

  /** Only the last part of a path counts, whichever slashes it has. */
  lemma LastPartCounts(t: Text, path: string, name: string)
    requires '/' !in name && '\\' !in name && t.nfc(name) == name
    requires t.nfc(Slashed(path) + "/" + name) == Slashed(path) + "/" + name
    ensures Cleaned(t, path + "/" + name) == Cleaned(t, name) && Cleaned(t, path + "\\" + name) == Cleaned(t, name)
  {
    hide IsReserved, TrimRight, IsInvalid, AfterLastSlash, Suffix, Slashed;
    SlashedJoins(path, name);
    LastOfPath(Slashed(path), name);
    NoSlashToCut(name);
    IsSlashed(path + "/" + name);
    IsSlashed(path + "\\" + name);
    IsSlashed(name);
  }

  lemma IsSlashed(name: string)
    ensures Each(name, c => if c == '\\' then '/' else c) == Slashed(name)
  {
  }

  lemma SlashedJoins(path: string, name: string)
    requires '\\' !in name
    ensures Slashed(path + "/" + name) == Slashed(path) + "/" + name
    ensures Slashed(path + "\\" + name) == Slashed(path) + "/" + name
    ensures Slashed(name) == name
  {
    assert Slashed(path + "/" + name) == Slashed(path) + "/" + name;
    assert Slashed(path + "\\" + name) == Slashed(path) + "/" + name;
    assert Slashed(name) == name;
  }

  function Underscored(name: string): (r: string)
    ensures |r| == |name|
    ensures forall i :: 0 <= i < |name| ==>
              r[i] == if name[i] in {'<', '>', ':', '"', '/', '\\', '|', '?', '*'} || name[i] as int < 32 then '_' else name[i]
  {
    Each(name, c => if IsInvalid(c) then '_' else c)
  }

  lemma SameUnderscored(name: string)
    ensures Each(name, c => if IsInvalid(c) then '_' else c) == Underscored(name)
  {
  }

  /**
    A name without slashes: what a path must not contain becomes an underscore,
    dots and spaces at the end go, nothing left becomes `_unnamed`, and a device's
    name gets an underscore in front.
   */
  lemma CleanedIs(t: Text, name: string, kept: string, tail: string)
    requires '/' !in name && '\\' !in name && t.nfc(name) == name && name == kept + tail
    requires forall i :: 0 <= i < |tail| ==> tail[i] == ' ' || tail[i] == '.'
    requires kept == "" || (kept[|kept| - 1] != ' ' && kept[|kept| - 1] != '.')
    ensures var named := if kept == "" then "_unnamed" else Underscored(kept);
            Cleaned(t, name) == if IsReserved(t.upper(Stem(named))) then "_" + named else named
  {
    hide Trimmed, IsReserved, Underscored, Suffix;
    TrimmedIs(t, name, kept, tail);
    assert kept != "" ==> Underscored(kept) != "";
  }

  lemma SlashedStays(name: string)
    requires '\\' !in name
    ensures Each(name, c => if c == '\\' then '/' else c) == name
  {
  }

  /** Dots and spaces are no invalid characters. */
  lemma SpacesStay(s: string)
    ensures forall i :: 0 <= i < |s| && (s[i] == ' ' || s[i] == '.') ==> Underscored(s)[i] == s[i]
    ensures forall i :: 0 <= i < |s| && s[i] != ' ' && s[i] != '.' ==> Underscored(s)[i] != ' ' && Underscored(s)[i] != '.'
    ensures (forall i :: 0 <= i < |s| ==> s[i] == ' ' || s[i] == '.') ==> Underscored(s) == s
  {
  }

  lemma TrimmedIs(t: Text, name: string, kept: string, tail: string)
    requires '/' !in name && '\\' !in name && t.nfc(name) == name && name == kept + tail
    requires forall i :: 0 <= i < |tail| ==> tail[i] == ' ' || tail[i] == '.'
    requires kept == "" || (kept[|kept| - 1] != ' ' && kept[|kept| - 1] != '.')
    ensures Trimmed(t, name) == Underscored(kept)
  {
    hide TrimRight, IsInvalid, AfterLastSlash;
    SlashedStays(name);
    NoSlashToCut(name);
    SameUnderscored(name);
    assert Underscored(name) == Underscored(kept) + Underscored(tail);
    SpacesStay(tail);
    SpacesStay(kept);
    TailGoes(Underscored(kept), tail);
  }

  lemma {:induction false} TailGoes(kept: string, tail: string)
    requires forall i :: 0 <= i < |tail| ==> tail[i] == ' ' || tail[i] == '.'
    requires kept == "" || (kept[|kept| - 1] != ' ' && kept[|kept| - 1] != '.')
    ensures TrimRight(kept + tail) == kept
  {
    if tail == "" {
      assert kept + tail == kept;
    } else {
      var n := |tail| - 1;
      TailGoes(kept, tail[..n]);
      assert (kept + tail)[..|kept + tail| - 1] == kept + tail[..n];
    }
  }

  /** Which names are reserved, and which look like it but are not. */
  lemma ReservedIff(name: string, digit: char)
    ensures IsReserved("CON") && IsReserved("PRN") && IsReserved("AUX") && IsReserved("NUL")
    ensures IsReserved("COM" + [digit]) <==> '1' <= digit <= '9'
    ensures IsReserved("LPT" + [digit]) <==> '1' <= digit <= '9'
    ensures IsReserved(name) ==> |name| == 3 || (|name| == 4 && '1' <= name[3] <= '9')
    ensures IsReserved(name) && |name| == 4 ==> name[0] in {'C', 'L'} && name[2] in {'M', 'T'}
  {
    DigitIs(digit);
    if |name| == 4 {
      DigitIs(name[3]);
      assert name[..3][0] == name[0] && name[..3][2] == name[2];
    }
    assert ("COM" + [digit])[..3] == "COM" && ("LPT" + [digit])[..3] == "LPT";
  }

  lemma DigitIs(c: char)
    ensures '1' <= c <= '9' <==> c in "123456789"
  {
    var n := c as int;
    assert '1' as int == 49 && '9' as int == 57;
    if 49 <= n <= 57 {
      assert c == "123456789"[n - 49];
    }
  }

  // ------------------------------------------------------------ numbered names

  function Decimal(n: nat): string {
    var digit := [(n % 10) as char + '0'];
    if n < 10 then digit else Decimal(n / 10) + digit
  }

  function Prefixed(prefix: string, basename: string): string {
    prefix + Cut(Stem(basename), Max(1, MAX_LENGTH - |prefix| - |Suffix(basename)|)) + Suffix(basename)
  }

  function Numbered(basename: string, n: nat): string { Prefixed("D" + Decimal(n) + "_", basename) }

  /** The number a string of digits stands for. */
  function Parsed(s: string): int {
    if s == "" then 0 else 10 * Parsed(s[..|s| - 1]) + (s[|s| - 1] as int - '0' as int)
  }

  /** The digits are those of the number, without a leading zero. */
  lemma {:induction false} DecimalIsParsed(n: nat)
    ensures Parsed(Decimal(n)) == n && Decimal(n) != "" && (n > 0 ==> Decimal(n)[0] != '0')
  {
    var digit := [(n % 10) as char + '0'];
    assert digit[..0] == "";
    if n >= 10 {
      DecimalIsParsed(n / 10);
      assert (Decimal(n / 10) + digit)[..|Decimal(n / 10) + digit| - 1] == Decimal(n / 10);
    }
  }

  /** A numbered name is `D`, the number and `_`, then the name itself, whose stem is cut where there is no room. */
  lemma NumberedKeepsEnds(basename: string, n: nat)
    ensures exists k :: 0 <= k <= |basename| - |Suffix(basename)|
              && Numbered(basename, n) == "D" + Decimal(n) + "_" + basename[..k] + Suffix(basename)
              && (basename != "" ==> k > 0)
              && (k == |basename| - |Suffix(basename)| || k == 1 || |Decimal(n)| + 2 + k + |Suffix(basename)| == 240)
    ensures |Decimal(n)| + 2 + |basename| <= 240 ==> Numbered(basename, n) == "D" + Decimal(n) + "_" + basename
  {
    var prefix, suffix, stem := "D" + Decimal(n) + "_", Suffix(basename), Stem(basename);
    var room := Max(1, MAX_LENGTH - |prefix| - |suffix|);
    var k := if |stem| <= room then |stem| else room;
    assert Cut(stem, room) == basename[..k];
    assert stem + suffix == basename;
    assert prefix + basename[..k] + suffix == prefix + Cut(stem, room) + suffix;
    if |prefix| + |basename| <= 240 {
      assert k == |stem|;
      assert prefix + stem + suffix == prefix + (stem + suffix);
    }
  }

  /** A prefixed name keeps the limit exactly when prefix and suffix leave room for a stem. */
  lemma PrefixedBoundedIff(prefix: string, basename: string)
    ensures |Prefixed(prefix, basename)| <= 240 <==>
            |prefix| + |Suffix(basename)| + (if basename == [] then 0 else 1) <= 240
  {
    assert Stem(basename) == [] <==> basename == [];
  }

  lemma NumberedBoundedIff(basename: string, n: nat)
    ensures |Numbered(basename, n)| <= 240 <==>
            |Decimal(n)| + 2 + |Suffix(basename)| + (if basename == [] then 0 else 1) <= 240
  {
    PrefixedBoundedIff("D" + Decimal(n) + "_", basename);
  }

  predicate Apart(t: Text, basename: string, m: nat, n: nat) {
    m != n ==> Key(t, Numbered(basename, m)) != Key(t, Numbered(basename, n))
  }

  /** The key of a numbered name tells its number. */
  ghost predicate NumbersTell(t: Text) {
    forall basename, m, n :: Apart(t, basename, m, n)
  }

  /** The tables leave the digits and the underscore after the `D` where they are. */
  predicate Marked(t: Text, n: nat, rest: string) {
    var key := Key(t, "D" + Decimal(n) + "_" + rest);
    key != [] && Decimal(n) + "_" <= key[1..]
  }

  ghost predicate KeepsMarks(t: Text) {
    forall n, rest :: Marked(t, n, rest)
  }

  lemma {:induction false} DecimalTells(m: nat, n: nat)
    requires Decimal(m) == Decimal(n)
    ensures m == n
  {
    assert Decimal(m)[|Decimal(m)| - 1] == Decimal(n)[|Decimal(n)| - 1];
    DecimalIsLong(m);
    DecimalIsLong(n);
    if m >= 10 {
      assert Decimal(m)[..|Decimal(m)| - 1] == Decimal(m / 10);
      assert Decimal(n)[..|Decimal(n)| - 1] == Decimal(n / 10);
      DecimalTells(m / 10, n / 10);
    }
  }

  lemma {:induction false} DecimalIsLong(n: nat)
    ensures |Decimal(n)| == 1 <==> n < 10
    ensures |Decimal(n)| >= 1
  {
    if n >= 10 {
      DecimalIsLong(n / 10);
    }
  }

  /** One number's digits up to the underscore cannot begin another's. */
  lemma MarksDiffer(m: nat, n: nat, s: string)
    requires Decimal(m) + "_" <= s && Decimal(n) + "_" <= s
    ensures m == n
  {
    var a, b := Decimal(m) + "_", Decimal(n) + "_";
    DecimalIsValid(m);
    DecimalIsValid(n);
    assert a[|a| - 1] == '_' && b[|b| - 1] == '_';
    assert forall i :: 0 <= i < |a| - 1 ==> a[i] == Decimal(m)[i] && a[i] != '_';
    assert forall i :: 0 <= i < |b| - 1 ==> b[i] == Decimal(n)[i] && b[i] != '_';
    assert s[|a| - 1] == '_' && s[|b| - 1] == '_';
    assert |a| == |b|;
    assert a == s[..|a|] == b;
    assert Decimal(m) == a[..|a| - 1] == Decimal(n);
    DecimalTells(m, n);
  }

  lemma MarksTellNumbers(t: Text)
    requires KeepsMarks(t)
    ensures NumbersTell(t)
  {
    forall basename, m: nat, n: nat ensures Apart(t, basename, m, n) {
      if Key(t, Numbered(basename, m)) == Key(t, Numbered(basename, n)) {
        MarkOfNumbered(t, basename, m);
        MarkOfNumbered(t, basename, n);
        MarksDiffer(m, n, Key(t, Numbered(basename, m))[1..]);
      }
    }
  }

  lemma MarkOfNumbered(t: Text, basename: string, n: nat)
    requires KeepsMarks(t)
    ensures var key := Key(t, Numbered(basename, n)); key != [] && Decimal(n) + "_" <= key[1..]
  {
    var prefix := "D" + Decimal(n) + "_";
    var stem := Cut(Stem(basename), Max(1, MAX_LENGTH - |prefix| - |Suffix(basename)|));
    assert Marked(t, n, stem + Suffix(basename));
    assert Numbered(basename, n) == prefix + (stem + Suffix(basename));
  }

  /** Tables that change nothing keep the marks, so the assumption can be met. */
  lemma PlainNamesKeepMarks()
    ensures NumbersTell(Text(s => s, s => s, s => s))
  {
    var plain := Text(s => s, s => s, s => s);
    forall n: nat, rest ensures Marked(plain, n, rest) {
      var name := "D" + Decimal(n) + "_" + rest;
      assert name[1..] == Decimal(n) + "_" + rest;
    }
    MarksTellNumbers(plain);
  }

  lemma ValidParts(a: string, b: string, c: string)
    requires forall i :: 0 <= i < |a| ==> !IsInvalid(a[i])
    requires forall i :: 0 <= i < |b| ==> !IsInvalid(b[i])
    requires forall i :: 0 <= i < |c| ==> !IsInvalid(c[i])
    ensures forall i :: 0 <= i < |a + b + c| ==> !IsInvalid((a + b + c)[i])
  {
  }

  lemma NumberedIsComponent(basename: string, n: nat)
    requires IsComponent(basename)
    ensures IsComponent(Numbered(basename, n))
  {
    hide Decimal;
    DecimalIsValid(n);
    var prefix := "D" + Decimal(n) + "_";
    var stem := Cut(Stem(basename), Max(1, MAX_LENGTH - |prefix| - |Suffix(basename)|));
    assert forall i :: 0 <= i < |stem| ==> stem[i] == basename[i];
    assert forall i :: 0 <= i < |Suffix(basename)| ==> Suffix(basename)[i] == basename[|basename| - |Suffix(basename)| + i];
    ValidParts(prefix, stem, Suffix(basename));
    assert Numbered(basename, n) == prefix + stem + Suffix(basename);
    assert Numbered(basename, n)[0] == 'D';
  }

  lemma {:induction false} DecimalIsValid(n: nat)
    ensures forall i :: 0 <= i < |Decimal(n)| ==> '0' <= Decimal(n)[i] <= '9'
  {
    if n >= 10 {
      DecimalIsValid(n / 10);
    }
  }

  /** The first number from `n` on whose name is free, or else `bound`. */
  function FirstFree(t: Text, basename: string, taken: set<string>, n: nat, bound: nat): (free: nat)
    requires n <= bound
    ensures n <= free <= bound
    ensures free < bound ==> Key(t, Numbered(basename, free)) !in taken
    ensures forall m :: n <= m < free ==> Key(t, Numbered(basename, m)) in taken
    decreases bound - n
  {
    if n == bound || Key(t, Numbered(basename, n)) !in taken then n else FirstFree(t, basename, taken, n + 1, bound)
  }

  ghost function KeysUpTo(t: Text, basename: string, n: nat): set<string> {
    if n == 0 then {} else KeysUpTo(t, basename, n - 1) + {Key(t, Numbered(basename, n))}
  }

  lemma {:induction false} NotAmong(t: Text, basename: string, n: nat, k: nat)
    requires NumbersTell(t) && n < k
    ensures Key(t, Numbered(basename, k)) !in KeysUpTo(t, basename, n)
  {
    hide Numbered, Key;
    if n > 0 {
      NotAmong(t, basename, n - 1, k);
      assert Apart(t, basename, n, k);
    }
  }

  lemma {:induction false} KeysAreMany(t: Text, basename: string, n: nat, taken: set<string>)
    requires NumbersTell(t) && forall m :: 1 <= m <= n ==> Key(t, Numbered(basename, m)) in taken
    ensures |KeysUpTo(t, basename, n)| == n && KeysUpTo(t, basename, n) <= taken
  {
    hide Numbered, Key;
    if n > 0 {
      KeysAreMany(t, basename, n - 1, taken);
      NotAmong(t, basename, n - 1, n);
    }
  }

  lemma {:induction false} SubsetIsSmaller<T>(a: set<T>, b: set<T>)
    requires a <= b
    ensures |a| <= |b|
    decreases a
  {
    if a != {} {
      var x :| x in a;
      SubsetIsSmaller(a - {x}, b - {x});
    }
  }

  /** One try more than there are taken names always finds a free one. */
  lemma SearchEnds(t: Text, basename: string, taken: set<string>)
    requires NumbersTell(t)
    ensures Key(t, Numbered(basename, FirstFree(t, basename, taken, 1, |taken| + 1))) !in taken
  {
    var n := |taken| + 1;
    if forall m :: 1 <= m <= n ==> Key(t, Numbered(basename, m)) in taken {
      KeysAreMany(t, basename, n, taken);
      SubsetIsSmaller(KeysUpTo(t, basename, n), taken);
      assert false;
    }
  }

  // -------------------------------------------------------------- allocation

  function KeysOf(t: Text, names: seq<string>): (keys: set<string>)
    ensures forall i :: 0 <= i < |names| ==> Key(t, names[i]) in keys
    ensures |keys| <= |names|
  {
    if names == [] then {}
    else
      var rest := KeysOf(t, names[..|names| - 1]);
      assert forall i :: 0 <= i < |names| - 1 ==> names[..|names| - 1][i] == names[i];
      rest + {Key(t, names[|names| - 1])}
  }

  /** No earlier candidate has this one's name. */
  predicate IsFirst(t: Text, bases: seq<string>, i: nat)
    requires i < |bases|
  {
    forall j :: 0 <= j < i ==> Key(t, bases[j]) != Key(t, bases[i])
  }

  function Chosen(t: Text, bases: seq<string>, names: seq<string>, i: nat): string
    requires i < |bases|
  {
    if IsFirst(t, bases, i) then bases[i]
    else
      var taken := KeysOf(t, bases) + KeysOf(t, names);
      Numbered(bases[i], FirstFree(t, bases[i], taken, 1, |taken| + 1))
  }

  /** The names of the first `n` candidates, in the order in which they are served. */
  function Allocated(t: Text, bases: seq<string>, n: nat): (names: seq<string>)
    requires n <= |bases|
    ensures |names| == n
  {
    if n == 0 then []
    else
      var names := Allocated(t, bases, n - 1);
      names + [Chosen(t, bases, names, n - 1)]
  }

  lemma {:induction false} EarlierNamesStay(t: Text, bases: seq<string>, m: nat, n: nat)
    requires m <= n <= |bases|
    ensures Allocated(t, bases, n)[..m] == Allocated(t, bases, m)
  {
    hide Chosen;
    if m < n {
      EarlierNamesStay(t, bases, m, n - 1);
      assert Allocated(t, bases, n)[..m] == Allocated(t, bases, n - 1)[..m];
    }
  }

  /** Name `i` is the original if nobody before had it, and otherwise nobody's original. */
  lemma OneName(t: Text, bases: seq<string>, i: nat)
    requires NumbersTell(t) && i < |bases|
    ensures var name := Allocated(t, bases, |bases|)[i];
            && name == Chosen(t, bases, Allocated(t, bases, i), i)
            && (IsFirst(t, bases, i) ==> name == bases[i])
            && (!IsFirst(t, bases, i) ==> Key(t, name) !in KeysOf(t, bases) + KeysOf(t, Allocated(t, bases, i)))
  {
    EarlierNamesStay(t, bases, i + 1, |bases|);
    assert Allocated(t, bases, |bases|)[..i + 1][i] == Allocated(t, bases, i + 1)[i];
    SearchEnds(t, bases[i], KeysOf(t, bases) + KeysOf(t, Allocated(t, bases, i)));
  }

  /**
    Two files of one name of 239 characters, within the limit: the second is
    given a name beyond it.
   */
  lemma SecondNameTooLong(t: Text)
    ensures var bases := [LongSuffix(240 - 2), LongSuffix(240 - 2)];
            |bases[0]| < 240 < |Allocated(t, bases, 2)[1]|
  {
    var base := LongSuffix(MAX_LENGTH - 2);
    var bases := [base, base];
    SuffixIsLong(MAX_LENGTH - 2);
    assert !IsFirst(t, bases, 1) by {
      assert Key(t, bases[0]) == Key(t, bases[1]);
    }
    var taken := KeysOf(t, bases) + KeysOf(t, Allocated(t, bases, 1));
    NumberedBoundedIff(base, FirstFree(t, base, taken, 1, |taken| + 1));
    assert Allocated(t, bases, 2)[1] == Chosen(t, bases, Allocated(t, bases, 1), 1);
  }

  /** All names differ, under the comparison that ignores case and composition. */
  lemma NamesDiffer(t: Text, bases: seq<string>, i: nat, j: nat)
    requires NumbersTell(t) && i < j < |bases|
    ensures Key(t, Allocated(t, bases, |bases|)[i]) != Key(t, Allocated(t, bases, |bases|)[j])
  {
    OneName(t, bases, i);
    OneName(t, bases, j);
    EarlierNamesStay(t, bases, j, |bases|);
    var before := Allocated(t, bases, j);
    assert before[i] == Allocated(t, bases, |bases|)[..j][i] == Allocated(t, bases, |bases|)[i];
    assert Key(t, before[i]) in KeysOf(t, before);
  }

  lemma ChosenIsComponent(t: Text, bases: seq<string>, names: seq<string>, i: nat)
    requires i < |bases| && IsComponent(bases[i])
    ensures IsComponent(Chosen(t, bases, names, i))
  {
    var taken := KeysOf(t, bases) + KeysOf(t, names);
    NumberedIsComponent(bases[i], FirstFree(t, bases[i], taken, 1, |taken| + 1));
  }

  lemma {:induction false} NamesAreComponents(t: Text, bases: seq<string>, n: nat, i: nat)
    requires i < n <= |bases| && forall k :: 0 <= k < |bases| ==> IsComponent(bases[k])
    ensures IsComponent(Allocated(t, bases, n)[i])
  {
    if i == n - 1 {
      ChosenIsComponent(t, bases, Allocated(t, bases, n - 1), n - 1);
    } else {
      NamesAreComponents(t, bases, n - 1, i);
    }
  }

  // -------------------------------------------------------- the order of service

  predicate StringLess(a: string, b: string) {
    b != [] && (a == [] || a[0] < b[0] || (a[0] == b[0] && StringLess(a[1..], b[1..])))
  }

  lemma {:induction false} StringsCompare(a: string, b: string)
    ensures a == b || StringLess(a, b) || StringLess(b, a)
  {
    if a != [] && b != [] && a[0] == b[0] {
      StringsCompare(a[1..], b[1..]);
      assert a == [a[0]] + a[1..] && b == [b[0]] + b[1..];
    }
  }

  lemma {:induction false} StringsChain(a: string, b: string, c: string)
    ensures StringLess(a, b) && StringLess(b, c) ==> StringLess(a, c)
    ensures !StringLess(a, a)
  {
    if a != [] {
      StringsChain(a[1..], if b == [] then [] else b[1..], if c == [] then [] else c[1..]);
    }
  }

  predicate Earlier(t: Text, a: Candidate, b: Candidate) {
    var p, q := Key(t, a.provenance), Key(t, b.provenance);
    StringLess(p, q) || (p == q && StringLess(a.provenance, b.provenance))
  }

  lemma CandidatesCompare(t: Text, a: Candidate, b: Candidate, c: Candidate)
    ensures a.provenance == b.provenance || Earlier(t, a, b) || Earlier(t, b, a)
    ensures Earlier(t, a, b) && Earlier(t, b, c) ==> Earlier(t, a, c)
    ensures !(Earlier(t, a, b) && Earlier(t, b, a))
  {
    var p, q, r := Key(t, a.provenance), Key(t, b.provenance), Key(t, c.provenance);
    StringsCompare(p, q);
    StringsCompare(a.provenance, b.provenance);
    StringsChain(p, q, r);
    StringsChain(p, q, p);
    StringsChain(a.provenance, b.provenance, c.provenance);
    StringsChain(a.provenance, b.provenance, a.provenance);
  }

  function Inserted(t: Text, c: Candidate, s: seq<Candidate>): seq<Candidate> {
    if s == [] || !Earlier(t, s[0], c) then [c] + s else [s[0]] + Inserted(t, c, s[1..])
  }

  /** A stable sort by key and provenance. */
  function Sorted(t: Text, s: seq<Candidate>): seq<Candidate> {
    if s == [] then [] else Inserted(t, s[0], Sorted(t, s[1..]))
  }

  predicate InOrder(t: Text, s: seq<Candidate>) {
    forall i, j :: 0 <= i < j < |s| ==> !Earlier(t, s[j], s[i])
  }

  lemma {:induction false} InsertedKeeps(t: Text, c: Candidate, s: seq<Candidate>)
    ensures multiset(Inserted(t, c, s)) == multiset(s) + multiset{c}
    ensures InOrder(t, s) ==> InOrder(t, Inserted(t, c, s))
  {
    if s != [] {
      assert s == [s[0]] + s[1..];
      if Earlier(t, s[0], c) {
        InsertedKeeps(t, c, s[1..]);
        InsertedStaysInOrder(t, c, s);
      } else if InOrder(t, s) {
        forall j | 0 <= j < |s| ensures !Earlier(t, s[j], c) {
          CandidatesCompare(t, s[j], c, s[0]);
          CandidatesCompare(t, c, s[0], s[j]);
        }
      }
    }
  }

  lemma InsertedStaysInOrder(t: Text, c: Candidate, s: seq<Candidate>)
    requires s != [] && Earlier(t, s[0], c)
    requires multiset(Inserted(t, c, s[1..])) == multiset(s[1..]) + multiset{c}
    requires InOrder(t, s[1..]) ==> InOrder(t, Inserted(t, c, s[1..]))
    ensures InOrder(t, s) ==> InOrder(t, Inserted(t, c, s))
  {
    var rest := Inserted(t, c, s[1..]);
    if InOrder(t, s) {
      forall j | 0 <= j < |rest| ensures !Earlier(t, rest[j], s[0]) {
        assert rest[j] in multiset(rest);
        if rest[j] == c {
          CandidatesCompare(t, s[0], c, c);
        } else {
          assert rest[j] in s[1..];
        }
      }
    }
  }

  lemma {:induction false} SortedIsInOrder(t: Text, s: seq<Candidate>)
    ensures InOrder(t, Sorted(t, s)) && multiset(Sorted(t, s)) == multiset(s)
  {
    if s != [] {
      SortedIsInOrder(t, s[1..]);
      InsertedKeeps(t, s[0], Sorted(t, s[1..]));
      assert s == [s[0]] + s[1..];
    }
  }

  predicate Distinct(s: seq<Candidate>) {
    forall i, j :: 0 <= i < j < |s| ==> s[i].provenance != s[j].provenance
  }

  /** With different provenances there is only one that can come first. */
  lemma SameFirst(t: Text, a: seq<Candidate>, b: seq<Candidate>)
    requires InOrder(t, a) && InOrder(t, b) && multiset(a) == multiset(b) && Distinct(a) && a != []
    ensures b != [] && a[0] == b[0]
  {
    assert |b| == |multiset(b)| == |multiset(a)| == |a|;
    assert a[0] in multiset(b) && b[0] in multiset(a);
    var i :| 0 <= i < |b| && b[i] == a[0];
    var j :| 0 <= j < |a| && a[j] == b[0];
    CandidatesCompare(t, a[0], b[0], a[0]);
  }

  lemma TailKeeps(t: Text, a: seq<Candidate>)
    requires a != []
    ensures InOrder(t, a) ==> InOrder(t, a[1..])
    ensures Distinct(a) ==> Distinct(a[1..])
    ensures multiset(a[1..]) == multiset(a) - multiset{a[0]}
  {
    hide Earlier;
    assert a == [a[0]] + a[1..];
  }

  /** So there is only one order. */
  lemma {:induction false} OneOrder(t: Text, a: seq<Candidate>, b: seq<Candidate>)
    requires InOrder(t, a) && InOrder(t, b) && multiset(a) == multiset(b) && Distinct(a)
    ensures a == b
  {
    hide Earlier, InOrder, Distinct;
    if a == [] {
      assert |b| == |multiset(b)|;
    } else {
      SameFirst(t, a, b);
      TailKeeps(t, a);
      TailKeeps(t, b);
      OneOrder(t, a[1..], b[1..]);
      assert a == [a[0]] + a[1..] && b == [b[0]] + b[1..];
    }
  }

  // ---------------------------------------------------------------- the result

  function Bases(t: Text, s: seq<Candidate>): (bases: seq<string>)
    ensures |bases| == |s| && forall i :: 0 <= i < |s| ==> bases[i] == SafeBasename(t, s[i].basename)
  {
    seq(|s|, i requires 0 <= i < |s| => SafeBasename(t, s[i].basename))
  }

  function ByKey(s: seq<Candidate>, names: seq<string>, n: nat): map<string, string>
    requires n <= |s| && n <= |names|
  {
    if n == 0 then map[] else ByKey(s, names, n - 1)[s[n - 1].key := names[n - 1]]
  }

  function AllocateNames(t: Text, candidates: seq<Candidate>): map<string, string> {
    var s := Sorted(t, candidates);
    ByKey(s, Allocated(t, Bases(t, s), |s|), |s|)
  }

  /** The names do not depend on the order in which the candidates come. */
  lemma OrderDoesNotMatter(t: Text, a: seq<Candidate>, b: seq<Candidate>)
    requires multiset(a) == multiset(b) && Distinct(a)
    ensures AllocateNames(t, a) == AllocateNames(t, b)
  {
    SortedIsInOrder(t, a);
    SortedIsInOrder(t, b);
    SortedIsDistinct(t, a);
    OneOrder(t, Sorted(t, a), Sorted(t, b));
  }

  lemma SortedIsDistinct(t: Text, s: seq<Candidate>)
    requires Distinct(s)
    ensures Distinct(Sorted(t, s))
  {
    SortedIsInOrder(t, s);
    var p := Sorted(t, s);
    forall i, j | 0 <= i < j < |p| ensures p[i].provenance != p[j].provenance {
      if p[i].provenance == p[j].provenance {
        TwiceIn(p, i, j);
        OnceIn(s, p[i], p[j]);
      }
    }
  }

  lemma TwiceIn(p: seq<Candidate>, i: nat, j: nat)
    requires i < j < |p|
    ensures multiset(p)[p[i]] + (if p[i] == p[j] then 0 else multiset(p)[p[j]]) >= 2
    ensures p[i] in multiset(p) && p[j] in multiset(p)
  {
    assert p == p[..i] + [p[i]] + p[i + 1..j] + [p[j]] + p[j + 1..];
  }

  lemma {:induction false} OnceIn(s: seq<Candidate>, a: Candidate, b: Candidate)
    requires Distinct(s) && a.provenance == b.provenance
    ensures multiset(s)[a] + (if a == b then 0 else multiset(s)[b]) <= 1
  {
    if s != [] {
      assert s == [s[0]] + s[1..];
      OnceIn(s[1..], a, b);
      if s[0] == a || s[0] == b {
        forall k | 0 <= k < |s[1..]| ensures s[1..][k] != a && s[1..][k] != b {
          assert s[1..][k] == s[k + 1];
        }
      }
    }
  }
}
