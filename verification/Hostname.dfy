/**
 The hostname a tenant may claim and the DNS challenge that proves it, as text.

 Lower-casing is the ASCII map, the one non-ASCII letter whose lower case is ASCII (U+212A, the Kelvin
 sign), and a parameter `fold` for every other character, which keeps a non-ASCII one in its place.
 */
module Hostname {
  import opened Common
  import HexColour

  predicate IsAscii(c: char) { c as int < 0x80 }

  const KELVIN: char := '\U{212A}'

  predicate KeepsNonAscii(fold: char -> string) {
    forall c: char :: !IsAscii(c) ==> exists i :: 0 <= i < |fold(c)| && !IsAscii(fold(c)[i])
  }

  function LowerChar(fold: char -> string, c: char): string {
    if 'A' <= c <= 'Z' then [c - 'A' + 'a'] else if IsAscii(c) then [c] else if c == KELVIN then "k" else fold(c)
  }

  function Lower(fold: char -> string, s: string): string {
    if s == [] then [] else LowerChar(fold, s[0]) + Lower(fold, s[1..])
  }

  // --- The refinements --------------------------------------------------------------------------

  function FirstDot(s: string): (i: nat)
    ensures i <= |s| && (i < |s| ==> s[i] == '.')
    ensures forall j :: 0 <= j < i ==> s[j] != '.'
  {
    if s == [] || s[0] == '.' then 0 else 1 + FirstDot(s[1..])
  }

  function Split(s: string): (labels: seq<string>)
    ensures |labels| >= 1
    decreases |s|
  {
    var i := FirstDot(s);
    if i == |s| then [s] else [s[..i]] + Split(s[i + 1..])
  }

  predicate IsLetterOrDigit(c: char) { 'a' <= c <= 'z' || '0' <= c <= '9' }

  /** `[a-z0-9]([a-z0-9-]{0,61}[a-z0-9])?` */
  predicate IsLabel(s: string) {
    && 1 <= |s| <= 63
    && IsLetterOrDigit(s[0]) && IsLetterOrDigit(s[|s| - 1])
    && forall i | 0 <= i < |s| :: IsLetterOrDigit(s[i]) || s[i] == '-'
  }

  predicate Every(labels: seq<string>) { forall i | 0 <= i < |labels| :: IsLabel(labels[i]) }

  predicate AllLabels(s: string) { Every(Split(s)) }

  predicate IsNumber(s: string) { 1 <= |s| <= 3 && forall i | 0 <= i < |s| :: '0' <= s[i] <= '9' }

  predicate IsIpv4(s: string) {
    var labels := Split(s);
    |labels| == 4 && forall i | 0 <= i < 4 :: IsNumber(labels[i])
  }

  predicate EndsWith(s: string, suffix: string) {
    |suffix| <= |s| && forall i | 0 <= i < |suffix| :: s[|s| - |suffix| + i] == suffix[i]
  }

  /** The suffixes `.local`, `.internal` and `.localhost`, and the same names on their own. */
  predicate IsReserved(s: string) {
    || s == "local" || EndsWith(s, ".local")
    || s == "internal" || EndsWith(s, ".internal")
    || s == "localhost" || EndsWith(s, ".localhost")
  }

  predicate Claimable(s: string) {
    && 4 <= |s| <= 253
    && !EndsWith(s, ".")
    && ':' !in s
    && !IsIpv4(s)
    && |Split(s)| >= 2
    && !IsReserved(s)
    && AllLabels(s)
  }

  function Normalised(fold: char -> string, input: string): string { Lower(fold, HexColour.Trim(input)) }

  function Accept(fold: char -> string, input: string): Option<string> {
    if Claimable(Normalised(fold, input)) then Some(Normalised(fold, input)) else None
  }

  // --- Labels and characters --------------------------------------------------------------------

  predicate IsHostChar(c: char) { IsLetterOrDigit(c) || c == '-' || c == '.' }

  lemma EveryCons(first: string, rest: seq<string>)
    ensures Every([first] + rest) <==> IsLabel(first) && Every(rest)
  {
    var all := [first] + rest;
    assert all[0] == first;
    assert forall k :: 0 <= k < |rest| ==> all[k + 1] == rest[k];
    assert forall k :: 0 < k < |all| ==> all[k] == rest[k - 1];
  }

  /** All labels: the first one, and all of what follows its dot. */
  lemma AllLabelsStep(s: string)
    ensures var i := FirstDot(s);
            AllLabels(s) <==> IsLabel(s[..i]) && (i < |s| ==> AllLabels(s[i + 1..]))
  {
    if FirstDot(s) == |s| {
      LastLabel(s);
    } else {
      FirstLabel(s);
    }
  }

  lemma LastLabel(s: string)
    requires FirstDot(s) == |s|
    ensures AllLabels(s) <==> IsLabel(s[..|s|])
  {
    assert s[..|s|] == s;
    EveryCons(s, []);
    assert [s] + [] == [s];
  }

  lemma FirstLabel(s: string)
    requires FirstDot(s) < |s|
    ensures AllLabels(s) <==> IsLabel(s[..FirstDot(s)]) && AllLabels(s[FirstDot(s) + 1..])
  {
    EveryCons(s[..FirstDot(s)], Split(s[FirstDot(s) + 1..]));
  }

  /** A string all of whose labels are labels holds host characters only. */
  lemma {:induction false} LabelsAreHostChars(s: string)
    requires AllLabels(s)
    ensures forall c :: c in s ==> IsHostChar(c)
    decreases |s|
  {
    AllLabelsStep(s);
    var i := FirstDot(s);
    if i < |s| {
      LabelsAreHostChars(s[i + 1..]);
      assert s == s[..i] + ['.'] + s[i + 1..];
    } else {
      assert s == s[..i];
    }
  }

  lemma {:induction false} TrailingDotRefused(s: string)
    requires s != [] && s[|s| - 1] == '.'
    ensures !AllLabels(s)
    decreases |s|
  {
    AllLabelsStep(s);
    var i := FirstDot(s);
    var rest := s[i + 1..];
    if rest == [] {
      AllLabelsStep(rest);
    } else {
      assert rest[|rest| - 1] == '.';
      TrailingDotRefused(rest);
    }
  }

  /**
   Two of the refinements say nothing the label check does not: a trailing dot leaves an empty label, and
   a colon is in no label.
   */
  lemma LabelCheckSubsumes(s: string)
    requires AllLabels(s)
    ensures !EndsWith(s, ".") && ':' !in s
  {
    LabelsAreHostChars(s);
    assert EndsWith(s, ".") ==> s[|s| - 1 + 0] == "."[0];
    if s != [] && s[|s| - 1] == '.' {
      TrailingDotRefused(s);
    }
  }

  /** Nor does the bare reserved name: it has one label. */
  lemma BareReservedNameHasOneLabel(s: string)
    requires s == "local" || s == "internal" || s == "localhost"
    ensures |Split(s)| == 1
  {
    NoDotOneLabel(s);
  }

  lemma NoDotOneLabel(s: string)
    requires '.' !in s
    ensures Split(s) == [s]
  {
  }

  // --- Revalidation -----------------------------------------------------------------------------

  lemma {:induction false} LowerHostChars(fold: char -> string, s: string)
    requires forall c :: c in s ==> IsHostChar(c)
    ensures Lower(fold, s) == s
  {
    if s == [] {
    } else {
      LowerHostChars(fold, s[1..]);
      assert s[0] in s;
      assert [s[0]] + s[1..] == s;
    }
  }

  lemma {:induction false} TrimHostChars(s: string)
    requires forall c :: c in s ==> IsHostChar(c)
    ensures HexColour.Trim(s) == s
  {
    if s != [] {
      assert s[0] in s && s[|s| - 1] in s;
    }
  }

  /** An accepted hostname is already in its own normal form, pure ASCII, and revalidates to itself. */
  lemma AcceptedRevalidates(fold: char -> string, input: string)
    requires Accept(fold, input).Some?
    ensures Accept(fold, Accept(fold, input).value) == Accept(fold, input)
    ensures forall c :: c in Accept(fold, input).value ==> IsHostChar(c) && IsAscii(c)
  {
    var v := Accept(fold, input).value;
    LabelsAreHostChars(v);
    LowerHostChars(fold, v);
    TrimHostChars(v);
  }

  lemma {:induction false} LowerKeepsNonAscii(fold: char -> string, s: string)
    requires KeepsNonAscii(fold)
    ensures (exists c :: c in Lower(fold, s) && !IsAscii(c)) <==> exists c :: c in s && !IsAscii(c) && c != KELVIN
  {
    if s == [] {
    } else {
      LowerKeepsNonAscii(fold, s[1..]);
      var head, rest := LowerChar(fold, s[0]), Lower(fold, s[1..]);
      assert Lower(fold, s) == head + rest;
      if !IsAscii(s[0]) && s[0] != KELVIN {
        var i :| 0 <= i < |fold(s[0])| && !IsAscii(fold(s[0])[i]);
        assert head[i] in head;
      }
      assert forall c :: c in s <==> c == s[0] || c in s[1..];
    }
  }

  /** The same text with `k` for every Kelvin sign. */
  function Plain(s: string): (t: string)
    ensures |t| == |s| && forall i :: 0 <= i < |s| ==> t[i] == if s[i] == KELVIN then 'k' else s[i]
  {
    seq(|s|, i requires 0 <= i < |s| => if s[i] == KELVIN then 'k' else s[i])
  }

  predicate AllAscii(s: string) { forall i | 0 <= i < |s| :: IsAscii(s[i]) }

  lemma {:induction false} LowerPlain(fold: char -> string, s: string)
    ensures Lower(fold, Plain(s)) == Lower(fold, s)
  {
    if s == [] {
    } else {
      assert Plain(s)[1..] == Plain(s[1..]);
      LowerPlain(fold, s[1..]);
    }
  }

  lemma {:induction false} TrimStartPlain(s: string)
    ensures HexColour.TrimStart(Plain(s)) == Plain(HexColour.TrimStart(s))
  {
    if s == [] {
    } else {
      assert Plain(s)[1..] == Plain(s[1..]);
      TrimStartPlain(s[1..]);
    }
  }

  lemma {:induction false} TrimEndPlain(s: string)
    ensures HexColour.TrimEnd(Plain(s)) == Plain(HexColour.TrimEnd(s))
  {
    if s == [] {
    } else {
      assert Plain(s)[..|s| - 1] == Plain(s[..|s| - 1]);
      TrimEndPlain(s[..|s| - 1]);
    }
  }

  /** On ASCII the case mapping has nothing to say beyond its ASCII part. */
  lemma {:induction false} LowerAscii(fold: char -> string, other: char -> string, s: string)
    requires AllAscii(s)
    ensures Lower(fold, s) == Lower(other, s)
  {
    if s == [] {
    } else {
      assert AllAscii(s[1..]);
      LowerAscii(fold, other, s[1..]);
    }
  }

  /**
   Every input is answered as the one with `k` for each Kelvin sign is. So "non-ASCII is refused" holds of
   every input but one family, exactly: an input is accepted when nothing but Kelvin signs in it is
   non-ASCII, after trimming, and the ASCII text with `k` in their place is accepted.
   */
  lemma NonAsciiRefusedExactly(fold: char -> string, input: string)
    requires KeepsNonAscii(fold)
    ensures Accept(fold, input) == Accept(fold, Plain(input))
    ensures Accept(fold, input).Some? <==>
              AllAscii(Plain(HexColour.Trim(input))) && Accept(c => [c], Plain(HexColour.Trim(input))).Some?
  {
    var trimmed := HexColour.Trim(input);
    TrimStartPlain(input);
    TrimEndPlain(HexColour.TrimStart(input));
    LowerPlain(fold, trimmed);
    TrimTwice(Plain(input));
    assert Normalised(fold, input) == Normalised(fold, Plain(input)) == Lower(fold, Plain(trimmed));
    AcceptedIsAscii(fold, input);
    if AllAscii(Plain(trimmed)) {
      LowerAscii(fold, c => [c], Plain(trimmed));
    }
  }

  lemma AcceptedIsAscii(fold: char -> string, input: string)
    requires KeepsNonAscii(fold)
    ensures Accept(fold, input).Some? ==> AllAscii(Plain(HexColour.Trim(input)))
  {
    if Accept(fold, input).Some? {
      var trimmed := HexColour.Trim(input);
      AcceptedRevalidates(fold, input);
      LowerKeepsNonAscii(fold, trimmed);
      assert forall i :: 0 <= i < |trimmed| ==> trimmed[i] in trimmed;
    }
  }

  lemma TrimTwice(s: string)
    ensures HexColour.Trim(HexColour.Trim(s)) == HexColour.Trim(s)
  {
    var t := HexColour.Trim(s);
    assert t != [] ==> t[0] == HexColour.TrimStart(s)[0];
  }

  lemma KelvinSignConverted(fold: char -> string)
    ensures Accept(fold, [KELVIN] + ".com") == Some("k.com")
  {
    var input := [KELVIN] + ".com";
    assert !HexColour.IsTrimmed(input[0]) && !HexColour.IsTrimmed(input[|input| - 1]);
    LowerHostChars(fold, ".com");
    assert input[1..] == ".com";
    assert HexColour.Trim(input) == input;
    assert Lower(fold, input) == LowerChar(fold, KELVIN) + Lower(fold, ".com") == "k.com";
    KComClaimable();
  }

  lemma KComClaimable()
    ensures Claimable("k.com")
  {
    var s := "k.com";
    assert FirstDot(s) == 1 by {
      assert s[1] == '.' && s[0] != '.';
    }
    assert s[..1] == "k" && s[2..] == "com";
    NoDotOneLabel("com");
    assert Split(s) == ["k", "com"];
    assert s[4..] == "m" && '.' in ".local" && s != "local" && s != "internal" && s != "localhost";
    assert |".local"| > |s| && |".internal"| > |s| && |".localhost"| > |s|;
  }

  // --- The challenge ----------------------------------------------------------------------------

  const DOMAIN_CHALLENGE_LABEL: string := "_whatsappcrm-challenge"
  const DOMAIN_CHALLENGE_VALUE_PREFIX: string := "whatsappcrm-domain-verification="

  function ChallengeRecordName(hostname: string): string { DOMAIN_CHALLENGE_LABEL + "." + hostname }

  function ChallengeRecordValue(token: string): string { DOMAIN_CHALLENGE_VALUE_PREFIX + token }

  /** A record name belongs to one hostname and a value to one token; a bare token satisfies no challenge. */
  lemma ChallengeInjective(a: string, b: string)
    ensures ChallengeRecordName(a) == ChallengeRecordName(b) <==> a == b
    ensures ChallengeRecordValue(a) == ChallengeRecordValue(b) <==> a == b
    ensures ChallengeRecordValue(a) != a
  {
    var dotted := DOMAIN_CHALLENGE_LABEL + ".";
    assert ChallengeRecordName(a)[|dotted|..] == a && ChallengeRecordName(b)[|dotted|..] == b;
    var prefix := DOMAIN_CHALLENGE_VALUE_PREFIX;
    assert ChallengeRecordValue(a)[|prefix|..] == a && ChallengeRecordValue(b)[|prefix|..] == b;
  }

  /** No challenge record name is itself claimable, under any hostname, nor is anything beneath it. */
  lemma ChallengeNameNotClaimable(hostname: string, above: string)
    ensures !Claimable(ChallengeRecordName(hostname))
    ensures !Claimable(above + ChallengeRecordName(hostname))
  {
    var name := ChallengeRecordName(hostname);
    assert name[0] == '_' && '_' in name;
    if AllLabels(name) {
      LabelsAreHostChars(name);
    }
    var beneath := above + name;
    assert beneath[|above|] == '_' && '_' in beneath;
    if AllLabels(beneath) {
      LabelsAreHostChars(beneath);
    }
  }
}
