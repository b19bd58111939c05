/** Script names in the runner: trimming, per-CPU keys and their inverse (lib/lunatik/runner.lua). */
module RunnerNames {
  import opened Bytes
  import opened Optional

  /** A Lua string is a string of bytes. */
  type Name = seq<byte>

  const COLON: byte := 58
  const ZERO: byte := 48
  const COMMA: byte := 44
  const SPACE: byte := 32
  const LUA: Name := [108, 117, 97]

  // ---- gsub("(%w+).lua", "%1") ----

  predicate IsAlnum(c: byte) {
    48 <= c <= 57 || 97 <= c <= 122 || 65 <= c <= 90
  }

  /** Length of the longest alphanumeric run at the start. */
  function Word(s: Name): (n: nat)
    ensures n <= |s|
  {
    if s == [] || !IsAlnum(s[0]) then 0 else 1 + Word(s[1..])
  }

  /** Whether the pattern matches at the start with a capture of `i` bytes: any byte, then "lua". */
  predicate MatchesWith(s: Name, i: nat) {
    i + 4 <= |s| && s[i + 1..i + 4] == LUA
  }

  /** The capture, longest first as the matcher backs off; 0 for no match. */
  function Capture(s: Name, i: nat): (k: nat)
    requires i <= |s|
    ensures k <= i && (k > 0 ==> MatchesWith(s, k))
  {
    if i == 0 || MatchesWith(s, i) then i else Capture(s, i - 1)
  }

  function Trim(s: Name): (r: Name)
    decreases |s|
  {
    if s == [] then []
    else
      var k := Capture(s, Word(s));
      if k > 0 then s[..k] + Trim(s[k + 4..]) else [s[0]] + Trim(s[1..])
  }

  /** Trimming never lengthens a name and keeps the length only of a name it leaves alone. */
  lemma {:induction false} TrimShortens(s: Name)
    ensures |Trim(s)| <= |s|
    ensures |Trim(s)| == |s| <==> Trim(s) == s
    decreases |s|
  {
    if s == [] {
    } else {
      var k := Capture(s, Word(s));
      if k > 0 {
        TrimShortens(s[k + 4..]);
      } else {
        TrimShortens(s[1..]);
        assert s == [s[0]] + s[1..];
      }
    }
  }

  /** At `i` there is a digit or a letter, then any byte, then "lua". */
  predicate SuffixAt(s: Name, i: nat) {
    && i + 5 <= |s| && (48 <= s[i] <= 57 || 65 <= s[i] <= 90 || 97 <= s[i] <= 122)
    && s[i + 2] == 108 && s[i + 3] == 117 && s[i + 4] == 97
  }

  ghost predicate HasSuffix(s: Name) {
    exists i: nat :: SuffixAt(s, i)
  }

  lemma {:induction false} WordIsAlnum(s: Name, i: nat)
    requires i < Word(s)
    ensures IsAlnum(s[i])
  {
    if i == 0 {
    } else {
      WordIsAlnum(s[1..], i - 1);
    }
  }

  lemma {:induction false} CaptureFinds(s: Name, i: nat, j: nat)
    requires 1 <= j <= i <= |s| && MatchesWith(s, j)
    ensures Capture(s, i) > 0
  {
    if i == j {
    } else {
      CaptureFinds(s, i - 1, j);
    }
  }

  lemma SuffixHere(s: Name)
    requires s != [] && Capture(s, Word(s)) == 0
    ensures !SuffixAt(s, 0)
  {
    if SuffixAt(s, 0) {
      assert s[2..5] == LUA;
      CaptureFinds(s, Word(s), 1);
    }
  }

  lemma CaptureIsSuffix(s: Name)
    requires s != [] && Capture(s, Word(s)) > 0
    ensures HasSuffix(s)
  {
    var k := Capture(s, Word(s));
    WordIsAlnum(s, k - 1);
    assert s[k + 1] == s[k + 1..k + 4][0] && s[k + 2] == s[k + 1..k + 4][1] && s[k + 3] == s[k + 1..k + 4][2];
    assert SuffixAt(s, k - 1);
  }

  lemma SuffixOfTail(s: Name)
    requires s != [] && !SuffixAt(s, 0)
    ensures HasSuffix(s) <==> HasSuffix(s[1..])
  {
    if i: nat :| SuffixAt(s, i) { assert SuffixAt(s[1..], i - 1); }
    if i: nat :| SuffixAt(s[1..], i) { assert SuffixAt(s, i + 1); }
  }

  /** Trimming leaves a name alone if and only if nowhere in it a digit or letter and one more byte precede "lua". */
  lemma {:induction false} TrimChangesIff(s: Name)
    ensures Trim(s) != s <==> HasSuffix(s)
    decreases |s|
  {
    if s == [] {
    } else {
      var k := Capture(s, Word(s));
      if k > 0 {
        CaptureIsSuffix(s);
        TrimShortens(s[k + 4..]);
      } else {
        SuffixHere(s);
        SuffixOfTail(s);
        TrimChangesIff(s[1..]);
        assert s == [s[0]] + s[1..];
      }
    }
  }

  /** The name of a script file: a name, a dot and "lua". */
  function File(name: Name): Name {
    name + [46, 108, 117, 97]
  }

  /** "lua" occurs in the name. */
  predicate HasLua(s: Name) {
    exists i :: 0 <= i <= |s| - 3 && s[i] == 108 && s[i + 1] == 117 && s[i + 2] == 97
  }

  /** A name in which "lua" does not occur is left alone. */
  lemma TrimLeavesAlone(s: Name)
    requires !HasLua(s)
    ensures Trim(s) == s
  {
    hide Trim;
    TrimChangesIff(s);
  }

  lemma TailHasLua(s: Name)
    requires s != [] && HasLua(s[1..])
    ensures HasLua(s)
  {
    var i :| 0 <= i <= |s[1..]| - 3 && s[1..][i] == 108 && s[1..][i + 1] == 117 && s[1..][i + 2] == 97;
    assert s[i + 1] == 108;
  }

  /** In the name of a file whose name has no "lua", the pattern can only match at the end. */
  lemma OnlyAtTheEnd(t: Name, k: nat)
    requires !HasLua(t) && MatchesWith(File(t), k)
    ensures k == |t|
  {
    var s := File(t);
    assert s[|t|] == 46;
    assert s[k + 1] == 108 && s[k + 2] == 117 && s[k + 3] == 97 by { assert s[k + 1..k + 4] == LUA; }
  }

  lemma {:induction false} WordOfFile(t: Name)
    ensures Word(File(t)) == Word(t)
  {
    if t == [] {
    } else {
      WordOfFile(t[1..]);
      assert File(t)[1..] == File(t[1..]);
    }
  }

  lemma {:induction false} ShortLeftAlone(s: Name)
    requires |s| < 5
    ensures Trim(s) == s
  {
    if s == [] {
    } else {
      ShortLeftAlone(s[1..]);
      assert s == [s[0]] + s[1..];
    }
  }

  lemma {:induction false} WholeWord(s: Name)
    ensures Word(s) == |s| ==> forall i | 0 <= i < |s| :: IsAlnum(s[i])
  {
    if s == [] {
    } else {
      WholeWord(s[1..]);
    }
  }

  lemma TrimStep(s: Name, k: nat)
    requires s != [] && k == Capture(s, Word(s))
    ensures Trim(s) == if k > 0 then s[..k] + Trim(s[k + 4..]) else [s[0]] + Trim(s[1..])
  {
    hide Capture, Word;
  }

  lemma FileParts(t: Name)
    ensures |File(t)| == |t| + 4 && File(t)[..|t|] == t && File(t)[|t| + 4..] == [] && File(t)[|t| + 1..|t| + 4] == LUA
    ensures t != [] ==> File(t)[0] == t[0] && File(t)[1..] == File(t[1..]) && File(t) == [t[0]] + File(t[1..])
  {
  }

  lemma TrimWord(t: Name)
    requires t != [] && Word(t) == |t|
    ensures Trim(File(t)) == t
  {
    FileParts(t);
    WordOfFile(t);
    hide File, Word, Trim;
    assert Capture(File(t), |t|) == |t|;
    TrimStep(File(t), |t|);
    assert Trim([]) == [] by { ShortLeftAlone([]); }
  }

  lemma TrimPast(t: Name)
    requires t != [] && Word(t) < |t| && !HasLua(t)
    ensures Trim(File(t)) == [t[0]] + Trim(File(t[1..]))
  {
    FileParts(t);
    WordOfFile(t);
    hide File, Word, Trim, HasLua, Capture;
    var k := Capture(File(t), Word(t));
    if k > 0 { OnlyAtTheEnd(t, k); }
    TrimStep(File(t), k);
  }

  /** The name ends in a digit or a letter. */
  predicate EndsInAlnum(t: Name) {
    t != [] && var c := t[|t| - 1]; 48 <= c <= 57 || 65 <= c <= 90 || 97 <= c <= 122
  }

  lemma EndsAlike(t: Name)
    requires t != [] && Word(t) < |t|
    ensures EndsInAlnum(t) <==> EndsInAlnum(t[1..])
  {
  }

  lemma WordEnds(t: Name)
    requires t != [] && Word(t) == |t|
    ensures EndsInAlnum(t)
  {
    WholeWord(t);
  }

  /** The file name of a script in whose name "lua" does not occur, directories included, is trimmed to that name if and
      only if the name ends in a digit or a letter; otherwise it is left alone. */
  lemma {:induction false} TrimFile(t: Name)
    requires !HasLua(t)
    ensures Trim(File(t)) == if EndsInAlnum(t) then t else File(t)
  {
    FileParts(t);
    hide File, Trim, HasLua, Word, EndsInAlnum;
    if t == [] {
      ShortLeftAlone(File(t));
      NothingEnds();
    } else if Word(t) == |t| {
      TrimWord(t);
      WordEnds(t);
    } else {
      if HasLua(t[1..]) { TailHasLua(t); }
      TrimPast(t);
      TrimFile(t[1..]);
      EndsAlike(t);
      assert t == [t[0]] + t[1..];
    }
  }

  lemma NothingEnds()
    ensures !EndsInAlnum([])
  {
  }

  // ---- script .. ":" .. cpu ----

  function Digit(d: nat): (c: byte)
    requires d < 10
    ensures ZERO <= c < ZERO + 10 && (c == ZERO <==> d == 0)
  {
    ZERO + d
  }

  function DigitValue(c: byte): int { c as int - ZERO as int }

  function Decimal(n: nat): (s: Name)
    ensures s != [] && COLON !in s
  {
    if n < 10 then [Digit(n)] else Decimal(n / 10) + [Digit(n % 10)]
  }

  function Number(s: Name): int {
    if s == [] then 0 else 10 * Number(s[..|s| - 1]) + DigitValue(s[|s| - 1])
  }

  lemma {:induction false} NumberDecimal(n: nat)
    ensures Number(Decimal(n)) == n
  {
    if n < 10 {
      assert Decimal(n)[..0] == [];
    } else {
      NumberDecimal(n / 10);
      assert Decimal(n)[..|Decimal(n)| - 1] == Decimal(n / 10);
    }
  }

  function CpuKey(script: Name, cpu: nat): (k: Name)
    ensures |k| >= |script| + 2
  {
    script + [COLON] + Decimal(cpu)
  }

  /** A key is the script, a colon and the number of the CPU in decimal. */
  lemma KeyText(script: Name, cpu: nat)
    ensures cpu < 10 ==> CpuKey(script, cpu) == script + [58, 48 + cpu]
    ensures cpu >= 10 ==> CpuKey(script, cpu) == CpuKey(script, cpu / 10) + [48 + cpu % 10]
  {
    if cpu >= 10 { assert Decimal(cpu) == Decimal(cpu / 10) + [48 + cpu % 10]; }
  }

  /** Length up to the last colon. */
  function LastColon(k: Name): nat {
    if k == [] || k[|k| - 1] == COLON then |k| else LastColon(k[..|k| - 1])
  }

  lemma {:induction false} LastColonAt(s: Name, d: Name)
    requires COLON !in d
    ensures LastColon(s + [COLON] + d) == |s| + 1
    decreases |d|
  {
    if d == [] {
      assert s + [COLON] + d == s + [COLON];
    } else {
      var k := s + [COLON] + d;
      assert k[|k| - 1] == d[|d| - 1] && k[..|k| - 1] == s + [COLON] + d[..|d| - 1];
      LastColonAt(s, d[..|d| - 1]);
    }
  }

  /** Different scripts or CPUs never share a key, colons in the script's name notwithstanding. */
  lemma KeyInjective(s: Name, c: nat, s': Name, c': nat)
    requires CpuKey(s, c) == CpuKey(s', c')
    ensures s == s' && c == c'
  {
    hide Decimal;
    var k, d, d' := CpuKey(s, c), Decimal(c), Decimal(c');
    LastColonAt(s, d);
    LastColonAt(s', d');
    assert s == k[..|s|] && s' == k[..|s'|];
    assert d == k[|s| + 1..] && d' == k[|s'| + 1..];
    NumberDecimal(c);
    NumberDecimal(c');
  }

  /** `match(key, "^(.+):0$")`. */
  function BaseName(k: Name): Option<Name> {
    if |k| >= 3 && k[|k| - 2..] == [COLON, ZERO] then Some(k[..|k| - 2]) else None
  }

  /** A per-CPU script is named by its key for CPU 0 and by no other. */
  lemma NameOfKey(s: Name, c: nat)
    ensures BaseName(CpuKey(s, c)) == if c == 0 && s != [] then Some(s) else None
  {
    var k := CpuKey(s, c);
    if c < 10 {
      assert k == s + [COLON] + [Digit(c)];
      assert k[|k| - 2..] == [COLON] + [Digit(c)] && k[..|k| - 2] == s;
      assert k[|k| - 2..][1] == Digit(c) && [COLON, ZERO][1] == ZERO;
    } else {
      var front := Decimal(c / 10);
      assert k == s + [COLON] + (front + [Digit(c % 10)]);
      assert k[|k| - 2..][0] == front[|front| - 1] && [COLON, ZERO][0] == COLON;
    }
  }

  // ---- keys that are prefixes of keys ----

  /** The decimal digits of `b` are the first digits of `a`, which has more. */
  predicate Heads(b: nat, a: nat) {
    a >= 10 && (a / 10 == b || Heads(b, a / 10))
  }

  lemma {:induction false} HeadsIsLess(b: nat, a: nat)
    requires Heads(b, a)
    ensures 0 < b < a && a >= 10
    decreases a
  {
    if a / 10 != b { HeadsIsLess(b, a / 10); }
  }

  lemma {:induction false} DecimalInjective(b: nat, a: nat)
    requires Decimal(b) == Decimal(a)
    ensures b == a
  {
    NumberDecimal(a);
    NumberDecimal(b);
  }

  lemma {:induction false} HeadsIsPrefix(b: nat, a: nat)
    ensures Heads(b, a) <==> Decimal(b) < Decimal(a)
    decreases a
  {
    var db, da := Decimal(b), Decimal(a);
    if a < 10 {
      assert |da| == 1;
    } else {
      var front := Decimal(a / 10);
      assert da == front + [Digit(a % 10)];
      HeadsIsPrefix(b, a / 10);
      if db < da {
        assert db == da[..|db|] && da[..|db|] == front[..|db|];
        if |db| == |front| {
          assert front[..|db|] == front;
          DecimalInjective(b, a / 10);
        }
      }
      if Heads(b, a) {
        assert db <= front;
      }
    }
  }

  /** The key of one CPU of a script is a prefix of the key of another exactly when its number is. */
  lemma CpuKeyPrefix(s: Name, b: nat, a: nat)
    ensures CpuKey(s, b) < CpuKey(s, a) <==> Heads(b, a)
  {
    hide Decimal, Heads;
    HeadsIsPrefix(b, a);
    var k, kb, ka := s + [COLON], CpuKey(s, b), CpuKey(s, a);
    PrefixCancels(k, Decimal(b), Decimal(a));
  }

  lemma PrefixCancels(k: Name, x: Name, y: Name)
    ensures k + x < k + y <==> x < y
  {
    if k + x < k + y {
      assert x == (k + x)[|k|..] && y == (k + y)[|k|..];
      assert forall i | 0 <= i < |x| :: x[i] == (k + x)[|k| + i] == (k + y)[|k| + i] == y[i];
    }
  }

  /** Scripts with no colon in their names: the keys of one never begin the keys of another. */
  lemma OtherScriptsApart(s: Name, b: nat, s': Name, a: nat)
    requires COLON !in s && COLON !in s' && CpuKey(s, b) <= CpuKey(s', a)
    ensures s == s'
  {
    hide Decimal;
    var k, k' := CpuKey(s, b), CpuKey(s', a);
    assert k[|s|] == COLON && k'[|s'|] == COLON;
    assert forall i | 0 <= i < |k| :: k[i] == k'[i];
    assert |s| == |s'|;
    assert s == k[..|s|] && s' == k'[..|s|];
  }

  // ---- table.concat(list, ", ") ----

  function Joined(names: seq<Name>): Name {
    if names == [] then []
    else if |names| == 1 then names[0]
    else names[0] + [COMMA, SPACE] + Joined(names[1..])
  }

  predicate NoCommas(names: seq<Name>) {
    forall i | 0 <= i < |names| :: COMMA !in names[i]
  }

  /** Different non-empty lists of names without commas never give the same text. */
  lemma {:induction false} JoinedUnique(a: seq<Name>, b: seq<Name>)
    requires a != [] && b != [] && NoCommas(a) && NoCommas(b) && Joined(a) == Joined(b)
    ensures a == b
  {
    JoinedAfterFirst(a);
    JoinedAfterFirst(b);
    var text := Joined(a);
    assert a[0] == text[..|a[0]|] == b[0];
    if |a| == 1 || |b| == 1 {
    } else {
      assert Joined(a[1..]) == text[|a[0]| + 2..] == Joined(b[1..]);
      JoinedUnique(a[1..], b[1..]);
      assert a == [a[0]] + a[1..] && b == [b[0]] + b[1..];
    }
  }

  /** The text begins with the first name; a comma follows if and only if there are others. */
  lemma JoinedAfterFirst(names: seq<Name>)
    requires names != []
    ensures names[0] <= Joined(names) && (|names| == 1 <==> |Joined(names)| == |names[0]|)
    ensures |names| > 1 ==> Joined(names) == names[0] + [44, 32] + Joined(names[1..])
                            && Joined(names)[|names[0]|] == COMMA && Joined(names)[|names[0]| + 2..] == Joined(names[1..])
  {
  }
}
