/** model/normalizer.go: normalising metric names. */
module MetricNames {

  const MAX_NAME_LEN := 100

  predicate IsAlpha(c: char) {
    'a' <= c <= 'z' || 'A' <= c <= 'Z'
  }

  predicate IsAlphaNum(c: char) {
    IsAlpha(c) || '0' <= c <= '9'
  }

  /** A name being built: letters, digits, dots and underscores, starting with a letter; an underscore follows a
      letter or a digit, and what follows it is one too. */
  predicate Building(s: string) {
    && s != "" && IsAlpha(s[0])
    && (forall c :: c in s ==> IsAlphaNum(c) || c == '.' || c == '_')
    && (forall i :: 0 < i < |s| && s[i] == '_' ==> IsAlphaNum(s[i - 1]))
    && (forall i :: 0 < i < |s| && s[i - 1] == '_' ==> IsAlphaNum(s[i]))
  }

  predicate Normal(s: string) {
    Building(s) && s[|s| - 1] != '_'
  }

  /** What one more character of the name does to the result. */
  function NormChar(res: string, c: char): string
    requires res != ""
  {
    var last := res[|res| - 1];
    if IsAlphaNum(c) then res + [c]
    else if c == '.' then (if last == '_' then res[..|res| - 1] + ['.'] else res + ['.'])
    else if last == '.' || last == '_' then res
    else res + ['_']
  }

  lemma NormCharBuilds(res: string, c: char)
    requires Building(res)
    ensures Building(NormChar(res, c))
  {
    var out := NormChar(res, c);
    if IsAlphaNum(c) || !(c == '.' && res[|res| - 1] == '_') {
      assert out == res || out == res + [out[|out| - 1]];
    } else {
      assert |res| > 1;
    }
  }

  /** A character that continues a normal name is appended as it is. */
  lemma NormCharKeeps(res: string, c: char)
    requires Building(res) && Building(res + [c])
    ensures NormChar(res, c) == res + [c]
  {
    var s := res + [c];
    assert s[|res| - 1] == res[|res| - 1] && s[|res|] == c && c in s;
  }

  function NormFrom(name: string, i: nat, res: string): (out: string)
    requires res != "" && i <= |name|
    ensures out != ""
    decreases |name| - i
  {
    if i == |name| then res
    else
      NormCharNotEmpty(res, name[i]);
      NormFrom(name, i + 1, NormChar(res, name[i]))
  }

  lemma NormCharNotEmpty(res: string, c: char)
    requires res != ""
    ensures NormChar(res, c) != ""
  {
  }

  datatype NormResult = NormResult(name: string, ok: bool)

  function FirstAlpha(name: string, i: nat): (j: nat)
    requires i <= |name|
    ensures i <= j <= |name| && (j < |name| ==> IsAlpha(name[j])) && forall k :: i <= k < j ==> !IsAlpha(name[k])
    decreases |name| - i
  {
    if i == |name| || IsAlpha(name[i]) then i else FirstAlpha(name, i + 1)
  }

  function Trimmed(res: string): string
    requires res != ""
  {
    if res[|res| - 1] == '_' then res[..|res| - 1] else res
  }

  function Norm(name: string): NormResult {
    if name == "" || |name| > MAX_NAME_LEN then NormResult(name, false)
    else
      var i := FirstAlpha(name, 0);
      if i == |name| then NormResult("", false)
      else
        NormResult(Trimmed(NormFrom(name, i + 1, [name[i]])), true)
  }

  lemma {:induction false} NormFromBuilds(name: string, i: nat, res: string)
    requires Building(res) && i <= |name|
    ensures Building(NormFrom(name, i, res)) && |NormFrom(name, i, res)| <= |res| + |name| - i
    decreases |name| - i
  {
    if i < |name| {
      NormCharBuilds(res, name[i]);
      NormFromBuilds(name, i + 1, NormChar(res, name[i]));
    }
  }

  lemma TrimmedIsNormal(res: string)
    requires Building(res)
    ensures Normal(Trimmed(res)) && |Trimmed(res)| <= |res|
  {
    var out := Trimmed(res);
    if res[|res| - 1] == '_' {
      assert |res| > 1 && out[|out| - 1] == res[|res| - 2];
    }
  }

  /** An accepted name is normal, so in particular it has no bar, and fits the limit. */
  lemma NormIsNormal(name: string)
    requires Norm(name).ok
    ensures Normal(Norm(name).name) && |Norm(name).name| <= MAX_NAME_LEN && '|' !in Norm(name).name
  {
    var i := FirstAlpha(name, 0);
    NormFromBuilds(name, i + 1, [name[i]]);
    TrimmedIsNormal(NormFrom(name, i + 1, [name[i]]));
  }

  /** A name is accepted exactly when it has a letter and fits the limit. */
  lemma NormAccepts(name: string)
    ensures Norm(name).ok <==> |name| <= 100 && exists c :: c in name && ('a' <= c <= 'z' || 'A' <= c <= 'Z')
  {
    if name != "" && |name| <= MAX_NAME_LEN {
      var i := FirstAlpha(name, 0);
      if i < |name| {
        NormFromBuilds(name, i + 1, [name[i]]);
        assert name[i] in name;
      }
    }
  }

  lemma {:induction false} NormFromKeeps(name: string, i: nat)
    requires Normal(name) && 0 < i <= |name|
    ensures NormFrom(name, i, name[..i]) == name
    decreases |name| - i
  {
    if i == |name| {
      assert name[..i] == name;
    } else {
      PrefixBuilds(name, i);
      PrefixBuilds(name, i + 1);
      assert name[..i + 1] == name[..i] + [name[i]];
      NormCharKeeps(name[..i], name[i]);
      NormFromKeeps(name, i + 1);
    }
  }

  lemma PrefixBuilds(name: string, i: nat)
    requires Building(name) && 0 < i <= |name|
    ensures Building(name[..i])
  {
    assert forall c :: c in name[..i] ==> c in name;
  }

  /** Normal names are the fixed points: normalising twice is normalising once. */
  lemma NormTwice(name: string)
    requires Norm(name).ok
    ensures Norm(Norm(name).name) == Norm(name)
  {
    var out := Norm(name).name;
    NormIsNormal(name);
    assert FirstAlpha(out, 0) == 0 && out[..1] == [out[0]];
    NormFromKeeps(out, 1);
  }

  // ---------------------------------------------------------------- what stands for the other characters

  predicate LetterOrDigit(c: char) {
    'a' <= c <= 'z' || 'A' <= c <= 'Z' || '0' <= c <= '9'
  }

  /** The length of the run of characters in front that are neither letters nor digits. */
  function Gap(s: string): (n: nat)
    ensures n <= |s| && (n < |s| ==> LetterOrDigit(s[n])) && forall i :: 0 <= i < n ==> !LetterOrDigit(s[i])
  {
    if s == "" || LetterOrDigit(s[0]) then 0 else 1 + Gap(s[1..])
  }

  function Dots(s: string): string {
    if s == "" then "" else (if s[0] == '.' then "." else "") + Dots(s[1..])
  }

  /** A run stands for its dots, if it has any, and otherwise for one underscore, or for nothing at the end. */
  function RunText(run: string, last: bool): string {
    if Dots(run) != "" then Dots(run) else if run == "" || last then "" else "_"
  }

  function Spelled(s: string): string
    decreases |s|
  {
    if s == "" then ""
    else if LetterOrDigit(s[0]) then [s[0]] + Spelled(s[1..])
    else RunText(s[..Gap(s)], Gap(s) == |s|) + Spelled(s[Gap(s)..])
  }

  /** What is still to come for the rest of the name when the result ends in `last`. */
  function ToCome(last: char, rest: string): string {
    var run := rest[..Gap(rest)];
    var more := Spelled(rest[Gap(rest)..]);
    if last == '_' then (if Dots(run) != "" then Dots(run) else if Gap(rest) == |rest| then "" else "_") + more
    else if last == '.' then Dots(run) + more
    else Spelled(rest)
  }

  lemma GapMore(c: char, rest: string)
    requires !IsAlphaNum(c)
    ensures Gap([c] + rest) == Gap(rest) + 1
    ensures ([c] + rest)[..Gap(rest) + 1] == [c] + rest[..Gap(rest)]
    ensures ([c] + rest)[Gap(rest) + 1..] == rest[Gap(rest)..]
    ensures Dots([c] + rest[..Gap(rest)]) == (if c == '.' then "." else "") + Dots(rest[..Gap(rest)])
  {
    assert ([c] + rest)[1..] == rest;
    assert ([c] + rest[..Gap(rest)])[1..] == rest[..Gap(rest)];
  }

  lemma NoGap(c: char, rest: string)
    requires IsAlphaNum(c)
    ensures Gap([c] + rest) == 0 && Spelled([c] + rest) == [c] + Spelled(rest)
    ensures Dots("") == "" && ([c] + rest)[..0] == "" && ([c] + rest)[0..] == [c] + rest
  {
    assert ([c] + rest)[1..] == rest;
  }

  predicate GoesOn(res: string) {
    res != "" && var last := res[|res| - 1]; IsAlphaNum(last) || last == '_' || last == '.'
  }

  /** One character does to the result what the reference says. */
  lemma NormCharSpells(res: string, c: char, rest: string)
    requires GoesOn(res)
    ensures var res' := NormChar(res, c);
            GoesOn(res') &&
            Trimmed(res') + ToCome(res'[|res'| - 1], rest) == Trimmed(res) + ToCome(res[|res| - 1], [c] + rest)
  {
    hide Spelled, Gap, Dots, ToCome;
    if IsAlphaNum(c) {
      LetterSpells(res, c, rest);
    } else if c == '.' {
      DotSpells(res, rest);
    } else {
      OtherSpells(res, c, rest);
    }
  }

  lemma LetterSpells(res: string, c: char, rest: string)
    requires GoesOn(res) && IsAlphaNum(c)
    ensures Trimmed(res + [c]) + ToCome(c, rest) == Trimmed(res) + ToCome(res[|res| - 1], [c] + rest)
  {
    hide Spelled, Gap, Dots;
    NoGap(c, rest);
    var last, more := res[|res| - 1], [c] + Spelled(rest);
    assert Trimmed(res + [c]) + ToCome(c, rest) == res + more;
    if last == '_' {
      assert res == res[..|res| - 1] + "_";
      assert ToCome(last, [c] + rest) == "_" + more;
    } else if last == '.' {
      assert "" + more == more;
    }
  }

  lemma DotSpells(res: string, rest: string)
    requires GoesOn(res)
    ensures var res' := Trimmed(res) + ['.'];
            Trimmed(res') + ToCome('.', rest) == Trimmed(res) + ToCome(res[|res| - 1], ['.'] + rest)
  {
    hide Spelled, Gap, Dots, ToCome;
    DotComes(res[|res| - 1], rest);
    assert Trimmed(Trimmed(res) + ['.']) == Trimmed(res) + ['.'];
    assert Trimmed(res) + ['.'] + ToCome('.', rest) == Trimmed(res) + (['.'] + ToCome('.', rest));
  }

  lemma DotComes(last: char, rest: string)
    requires IsAlphaNum(last) || last == '_' || last == '.'
    ensures ToCome(last, ['.'] + rest) == ['.'] + ToCome('.', rest)
  {
    hide Spelled, Gap, Dots, RunText;
    GapMore('.', rest);
    GapSpelled('.', rest);
    var run, more := rest[..Gap(rest)], Spelled(rest[Gap(rest)..]);
    DotRun(run, Gap(rest) == |rest|);
    assert "." + Dots(run) + more == ['.'] + (Dots(run) + more);
  }

  lemma DotRun(run: string, last: bool)
    ensures RunText(['.'] + run, last) == "." + Dots(run) != ""
  {
    assert (['.'] + run)[1..] == run;
  }

  lemma OtherSpells(res: string, c: char, rest: string)
    requires GoesOn(res) && !IsAlphaNum(c) && c != '.'
    ensures var res' := if res[|res| - 1] == '.' || res[|res| - 1] == '_' then res else res + ['_'];
            Trimmed(res') + ToCome(res'[|res'| - 1], rest) == Trimmed(res) + ToCome(res[|res| - 1], [c] + rest)
  {
    hide Spelled, Gap, Dots, ToCome;
    OtherComes(res[|res| - 1], c, rest);
    assert (res + ['_'])[..|res|] == res;
  }

  lemma OtherComes(last: char, c: char, rest: string)
    requires (IsAlphaNum(last) || last == '_' || last == '.') && !IsAlphaNum(c) && c != '.'
    ensures ToCome(last, [c] + rest) == ToCome(if last == '.' then '.' else '_', rest)
  {
    hide Spelled, Gap, Dots, RunText;
    GapMore(c, rest);
    GapSpelled(c, rest);
    var run := rest[..Gap(rest)];
    assert "" + Dots(run) == Dots(run);
    OtherRun(c, run, Gap(rest) == |rest|);
  }

  lemma OtherRun(c: char, run: string, last: bool)
    requires c != '.'
    ensures RunText([c] + run, last) == if Dots(run) != "" then Dots(run) else if last then "" else "_"
  {
    assert ([c] + run)[1..] == run;
    assert "" + Dots(run) == Dots(run);
  }

  lemma GapSpelled(c: char, rest: string)
    requires !IsAlphaNum(c)
    ensures var run := [c] + rest[..Gap(rest)];
            Spelled([c] + rest) == RunText(run, Gap(rest) == |rest|) + Spelled(rest[Gap(rest)..])
  {
    GapMore(c, rest);
    hide Dots;
  }

  lemma {:induction false} NormFromSpells(name: string, i: nat, res: string)
    requires i <= |name| && GoesOn(res)
    ensures Trimmed(NormFrom(name, i, res)) == Trimmed(res) + ToCome(res[|res| - 1], name[i..])
    decreases |name| - i
  {
    if i == |name| {
      NothingToCome();
      assert name[i..] == "" && Trimmed(res) + "" == Trimmed(res);
    } else {
      hide NormChar, ToCome;
      assert name[i..] == [name[i]] + name[i + 1..];
      NormCharSpells(res, name[i], name[i + 1..]);
      NormFromSpells(name, i + 1, NormChar(res, name[i]));
    }
  }

  lemma NothingToCome()
    ensures forall last :: ToCome(last, "") == ""
  {
  }

  /** A normal name begins with the first letter and has all letters and digits from there on. The characters between
      two of them stand for as many dots as there are among them, or for one underscore if there are none; and those at
      the end for their dots alone. */
  lemma NormIsSpelled(name: string, i: nat)
    requires Norm(name).ok
    requires i < |name| && ('a' <= name[i] <= 'z' || 'A' <= name[i] <= 'Z')
    requires forall k :: 0 <= k < i ==> !('a' <= name[k] <= 'z' || 'A' <= name[k] <= 'Z')
    ensures Norm(name).name == Spelled(name[i..])
  {
    hide Spelled, NormFrom, Gap, Dots, RunText;
    assert FirstAlpha(name, 0) == i;
    NormFromSpells(name, i + 1, [name[i]]);
    NoGap(name[i], name[i + 1..]);
    assert name[i..] == [name[i]] + name[i + 1..];
  }

  lemma StartsBuilding(c: char)
    requires IsAlpha(c)
    ensures Building([c])
  {
  }

  method AppendChar(res: string, c: char) returns (out: string)
    requires res != ""
    ensures out == NormChar(res, c)
  {
    var last := res[|res| - 1];
    if IsAlphaNum(c) {
      out := res + [c];
    } else if c == '.' {
      if last == '_' {
        out := res[|res| - 1 := '.'];
        assert out == res[..|res| - 1] + ['.'];
      } else {
        out := res + ['.'];
      }
    } else if last == '.' || last == '_' {
      out := res;
    } else {
      out := res + ['_'];
    }
  }

  method NormMetricNameParse(name: string) returns (norm: string, ok: bool)
    ensures NormResult(norm, ok) == Norm(name)
    ensures ok ==> Normal(norm) && '|' !in norm
  {
    hide Building, NormChar, Normal;
    if name == "" || |name| > MAX_NAME_LEN {
      return name, false;
    }
    var i := 0;
    while i < |name| && !IsAlpha(name[i])
      invariant 0 <= i <= |name| && FirstAlpha(name, i) == FirstAlpha(name, 0)
    {
      i := i + 1;
    }
    if i == |name| {
      return "", false;
    }
    ghost var first := i;
    var res := [name[i]];
    StartsBuilding(name[i]);
    i := i + 1;
    while i < |name|
      invariant first < i <= |name| && res != "" && Building(res)
      invariant NormFrom(name, i, res) == NormFrom(name, first + 1, [name[first]])
    {
      NormCharBuilds(res, name[i]);
      NormCharNotEmpty(res, name[i]);
      res := AppendChar(res, name[i]);
      i := i + 1;
    }
    if res[|res| - 1] == '_' {
      res := res[..|res| - 1];
    }
    NormIsNormal(name);
    return res, true;
  }
}
