/** The admin access gate that guards the key-management endpoints: a decision
    over the `ADMIN_ALLOWED_IPS` setting and the caller's host. The setting and
    the host are plain parameters; reading them from the environment and from
    the request is not part of this model. */
module AdminGate {
  import opened Text

  /** The gate either lets the request through (the Python function returns
      `True`) or raises HTTP 403. There is no third outcome: it never returns
      a false value. */
  datatype GateResult = Allow | Deny403

  const Wildcard: string := "*"
  const Separator: char := ','

  /** The caller names admitted while nothing is configured. */
  const LoopbackHosts: seq<string> := ["127.0.0.1", "localhost", "::1"]

  /** Detail of the 403 response. */
  const DeniedDetail: string := "Acesso negado. IP não autorizado para acesso administrativo."

  // ---------------------------------------------------------------------------
  // The gate as written: a strip comparison, a split, `any` and a list
  // comprehension
  // ---------------------------------------------------------------------------

  /** `any(ip.strip() for ip in entries)`: some entry is not blank. */
  function AnyNonBlank(entries: seq<string>): (b: bool)
    ensures b <==> exists k :: 0 <= k < |entries| && Strip(entries[k]) != ""
  {
    if entries == [] then false
    else Strip(entries[0]) != "" || AnyNonBlank(entries[1..])
  }

  /** `[ip.strip() for ip in entries if ip.strip()]`: the stripped entries
      that are not blank, in order; `StrippedNonBlankMembers` says which
      strings it holds. */
  function StrippedNonBlank(entries: seq<string>): (r: seq<string>)
    ensures |r| <= |entries|
    ensures forall k :: 0 <= k < |r| ==> r[k] != ""
  {
    if entries == [] then []
    else
      var head := Strip(entries[0]);
      var rest := StrippedNonBlank(entries[1..]);
      if head != "" then [head] + rest else rest
  }

  /** The comprehension holds exactly the non-blank stripped entries. */
  lemma {:induction false} StrippedNonBlankMembers(entries: seq<string>, x: string)
    ensures x in StrippedNonBlank(entries) <==>
      x != "" && exists k :: 0 <= k < |entries| && Strip(entries[k]) == x
    decreases |entries|
  {
    if entries != [] {
      var tail := entries[1..];
      StrippedNonBlankMembers(tail, x);
      assert forall k :: 1 <= k < |entries| ==> entries[k] == tail[k - 1];
      if x != "" && exists k :: 0 <= k < |entries| && Strip(entries[k]) == x {
        var k :| 0 <= k < |entries| && Strip(entries[k]) == x;
        if k > 0 {
          assert Strip(tail[k - 1]) == x;
        }
      }
    }
  }

  /** `verify_admin_access`: the wildcard first, then the loopback allowance
      for an unconfigured setting, then membership in the configured list.
      `GateMatchesPolicy` says whom it admits. */
  function Gate(setting: string, clientIp: string): GateResult
  {
    if Strip(setting) == Wildcard then Allow
    else
      var entries := Split(setting, Separator);
      if !AnyNonBlank(entries) && clientIp in LoopbackHosts then Allow
      else if clientIp !in StrippedNonBlank(entries) then Deny403
      else Allow
  }

  // ---------------------------------------------------------------------------
  // The policy, stated on the characters of the setting
  // ---------------------------------------------------------------------------

  /** The setting is one `*` with only whitespace around it. */
  ghost predicate WildcardSetting(setting: string) {
    exists i :: 0 <= i < |setting| && setting[i] == '*'
                && AllSpace(setting[..i]) && AllSpace(setting[i + 1..])
  }

  /** Nothing is configured: the setting holds only separators and
      whitespace, so every entry is blank (the empty setting included). */
  ghost predicate Unconfigured(setting: string) {
    forall i :: 0 <= i < |setting| ==> setting[i] == Separator || IsSpace(setting[i])
  }

  /** The caller is one of the entries, compared after stripping; a blank
      entry names nobody. */
  ghost predicate Listed(setting: string, clientIp: string) {
    var entries := Split(setting, Separator);
    clientIp != "" && exists k :: 0 <= k < |entries| && Strip(entries[k]) == clientIp
  }

  /** Who the gate lets through. */
  ghost predicate AdminPolicy(setting: string, clientIp: string) {
    || WildcardSetting(setting)
    || (Unconfigured(setting) && clientIp in LoopbackHosts)
    || Listed(setting, clientIp)
  }

  /** The gate admits exactly the callers the policy names. */
  lemma GateMatchesPolicy(setting: string, clientIp: string)
    ensures Gate(setting, clientIp) == Allow <==> AdminPolicy(setting, clientIp)
  {
    WildcardShape(setting);
    UnconfiguredShape(setting);
    StrippedNonBlankMembers(Split(setting, Separator), clientIp);
  }

  /** `setting.strip() == "*"` is the wildcard shape. */
  lemma WildcardShape(setting: string)
    ensures Strip(setting) == Wildcard <==> WildcardSetting(setting)
  {
    if Strip(setting) == Wildcard {
      var i := StripShape(setting);
      assert setting[i] == setting[i..i + 1][0];
    }
    if WildcardSetting(setting) {
      var i :| 0 <= i < |setting| && setting[i] == '*'
               && AllSpace(setting[..i]) && AllSpace(setting[i + 1..]);
      StripAroundStar(setting, i);
    }
  }

  lemma StripAroundStar(setting: string, i: nat)
    requires i < |setting| && setting[i] == '*'
    requires AllSpace(setting[..i]) && AllSpace(setting[i + 1..])
    ensures Strip(setting) == Wildcard
  {
    var a, b := setting[..i], setting[i + 1..];
    assert setting == a + Wildcard + b;
    StripPadded(a, Wildcard, b);
  }

  /** "every entry is blank" is "the setting holds only separators and
      whitespace". */
  lemma UnconfiguredShape(setting: string)
    ensures !AnyNonBlank(Split(setting, Separator)) <==> Unconfigured(setting)
  {
    var entries := Split(setting, Separator);
    forall k | 0 <= k < |entries| ensures Strip(entries[k]) == "" <==> AllSpace(entries[k]) {
      StripEmptyIff(entries[k]);
    }
    SplitAllSpace(setting);
  }

  /** Every piece is all whitespace. */
  ghost predicate AllPiecesBlank(ps: seq<string>) {
    forall k :: 0 <= k < |ps| ==> AllSpace(ps[k])
  }

  lemma AllPiecesBlankCons(p: string, ps: seq<string>)
    ensures AllPiecesBlank([p] + ps) <==> AllSpace(p) && AllPiecesBlank(ps)
  {
    var qs := [p] + ps;
    if AllPiecesBlank(qs) {
      assert AllSpace(qs[0]);
      forall k | 0 <= k < |ps| ensures AllSpace(ps[k]) {
        assert ps[k] == qs[k + 1];
      }
    }
    if AllSpace(p) && AllPiecesBlank(ps) {
      forall k | 0 <= k < |qs| ensures AllSpace(qs[k]) {
        if k > 0 { assert qs[k] == ps[k - 1]; }
      }
    }
  }

  /** Every piece of a split is all whitespace exactly when every character is
      a separator or whitespace. */
  lemma {:induction false} SplitAllSpace(s: string)
    ensures AllPiecesBlank(Split(s, Separator)) <==> Unconfigured(s)
    decreases |s|
  {
    if |s| > 0 {
      var t := s[1..];
      SplitAllSpace(t);
      var rest := Split(t, Separator);
      var ps := Split(s, Separator);
      assert Unconfigured(s) <==> (s[0] == Separator || IsSpace(s[0])) && Unconfigured(t) by {
        assert forall i :: 1 <= i < |s| ==> s[i] == t[i - 1];
        assert forall i :: 0 <= i < |t| ==> t[i] == s[i + 1];
      }
      if s[0] == Separator {
        assert ps == [""] + rest;
        assert forall k :: 1 <= k < |ps| ==> ps[k] == rest[k - 1];
        assert forall k :: 0 <= k < |rest| ==> rest[k] == ps[k + 1];
      } else {
        var first := [s[0]] + rest[0];
        assert ps == [first] + rest[1..];
        AllSpaceCons(s[0], rest[0]);
        AllPiecesBlankCons(first, rest[1..]);
        AllPiecesBlankCons(rest[0], rest[1..]);
        assert rest == [rest[0]] + rest[1..];
      }
    }
  }

  // ---------------------------------------------------------------------------
  // What the gate promises, case by case
  // ---------------------------------------------------------------------------

  /** A wildcard setting admits every caller, whatever else it could mean. */
  lemma WildcardAdmitsAll(setting: string, clientIp: string)
    requires Strip(setting) == Wildcard
    ensures Gate(setting, clientIp) == Allow
  {
  }

  /** The wildcard must stand alone: a setting with two characters that are
      not whitespace is not the wildcard, even when one of them is `*`. */
  lemma WildcardStandsAlone(setting: string, i: nat, j: nat)
    requires i < |setting| && j < |setting| && i != j
    requires !IsSpace(setting[i]) && !IsSpace(setting[j])
    ensures Strip(setting) != Wildcard
  {
    if Strip(setting) == Wildcard {
      var m := StripShape(setting);
      assert false;
    }
  }

  // The lemmas about one concrete setting take it as a parameter pinned by
  // `requires setting == "..."` instead of writing the literal into the
  // ensures. Written inline, the verifier would try to evaluate `Split` and
  // `Strip` on the literal character by character, which is far too costly;
  // with a parameter, the facts about the literal are built up step by step
  // (through `Join`/`SplitJoin` and `StripPadded`) by small helper lemmas.

  /** So "*,10.0.0.1" is a list, not the wildcard: it admits 10.0.0.1 and a
      caller whose host is literally "*", and denies 8.8.8.8. */
  lemma WildcardInListIsNotWildcard(setting: string)
    requires setting == "*,10.0.0.1"
    ensures Gate(setting, "10.0.0.1") == Allow
    ensures Gate(setting, "*") == Allow
    ensures Gate(setting, "8.8.8.8") == Deny403
  {
    StarListEntries(setting);
    ListedAdmits(setting, "*", 0);
    ListedAdmits(setting, "10.0.0.1", 1);
    UnlistedDenied(setting, "8.8.8.8");
  }

  lemma StarListEntries(setting: string)
    requires setting == "*,10.0.0.1"
    ensures Strip(setting) != Wildcard
    ensures Split(setting, Separator) == ["*", "10.0.0.1"]
    ensures Strip("*") == "*" && Strip("10.0.0.1") == "10.0.0.1"
  {
    WildcardStandsAlone(setting, 0, 1);
    StarListSplit(setting);
    StripBare("*");
    StripBare("10.0.0.1");
  }

  lemma StarListSplit(setting: string)
    requires setting == "*,10.0.0.1"
    ensures Split(setting, Separator) == ["*", "10.0.0.1"]
  {
    assert setting == Join(["*", "10.0.0.1"], Separator);
    SplitJoin(["*", "10.0.0.1"], Separator);
  }

  /** An entry without surrounding whitespace strips to itself. */
  lemma StripBare(e: string)
    requires e == [] || (!IsSpace(e[0]) && !IsSpace(e[|e| - 1]))
    ensures Strip(e) == e
  {
    assert [] + e + [] == e;
    StripPadded([], e, []);
  }

  /** Outside the wildcard, a caller that matches no stripped entry is denied,
      unless it is a loopback name and nothing is configured. */
  lemma UnlistedDenied(setting: string, clientIp: string)
    requires Strip(setting) != Wildcard
    requires clientIp !in LoopbackHosts || !Unconfigured(setting)
    requires forall k :: 0 <= k < |Split(setting, Separator)| ==>
               Strip(Split(setting, Separator)[k]) != clientIp
    ensures Gate(setting, clientIp) == Deny403
  {
    GateMatchesPolicy(setting, clientIp);
    WildcardShape(setting);
  }

  /** Entries are compared after stripping. */
  lemma ListedAdmits(setting: string, clientIp: string, k: nat)
    requires k < |Split(setting, Separator)|
    requires clientIp != "" && Strip(Split(setting, Separator)[k]) == clientIp
    ensures Gate(setting, clientIp) == Allow
  {
    GateMatchesPolicy(setting, clientIp);
  }

  /** Blank entries name nobody: an empty host gets in only through the
      wildcard. */
  lemma EmptyHostOnlyByWildcard(setting: string)
    ensures Gate(setting, "") == Allow <==> WildcardSetting(setting)
  {
    GateMatchesPolicy(setting, "");
  }

  /** " 1.2.3.4 , 5.6.7.8" admits both addresses. */
  lemma PaddedEntriesMatch(setting: string)
    requires setting == " 1.2.3.4 , 5.6.7.8"
    ensures Gate(setting, "1.2.3.4") == Allow
    ensures Gate(setting, "5.6.7.8") == Allow
  {
    PaddedEntriesSplit(setting);
    PaddedEntriesStrip(Split(setting, Separator)[0], Split(setting, Separator)[1]);
    ListedAdmits(setting, "1.2.3.4", 0);
    ListedAdmits(setting, "5.6.7.8", 1);
  }

  lemma PaddedEntriesSplit(setting: string)
    requires setting == " 1.2.3.4 , 5.6.7.8"
    ensures Split(setting, Separator) == [" 1.2.3.4 ", " 5.6.7.8"]
  {
    var e1, e2 := " 1.2.3.4 ", " 5.6.7.8";
    assert setting == Join([e1, e2], Separator);
    SplitJoin([e1, e2], Separator);
  }

  lemma PaddedEntriesStrip(e1: string, e2: string)
    requires e1 == " 1.2.3.4 " && e2 == " 5.6.7.8"
    ensures Strip(e1) == "1.2.3.4" && Strip(e2) == "5.6.7.8"
  {
    assert e1 == " " + "1.2.3.4" + " ";
    StripPadded(" ", "1.2.3.4", " ");
    assert e2 == " " + "5.6.7.8" + [];
    StripPadded(" ", "5.6.7.8", []);
  }

  /** An unconfigured setting (empty, blank, or only separators) admits the
      three loopback names. */
  lemma UnconfiguredAdmitsLoopback(setting: string, clientIp: string)
    requires Unconfigured(setting)
    requires clientIp in LoopbackHosts
    ensures Gate(setting, clientIp) == Allow
  {
    GateMatchesPolicy(setting, clientIp);
  }

  /** An unconfigured setting denies everybody else with 403: not the
      wildcard, and its filtered list is empty. */
  lemma UnconfiguredDeniesOthers(setting: string, clientIp: string)
    requires Unconfigured(setting)
    requires clientIp !in LoopbackHosts
    ensures Gate(setting, clientIp) == Deny403
  {
    GateMatchesPolicy(setting, clientIp);
    UnconfiguredShape(setting);
  }

  /** Outside the wildcard, a configured setting gives loopback no special
      treatment: a caller is admitted exactly when it is listed. */
  lemma ConfiguredMeansListed(setting: string, clientIp: string)
    requires Strip(setting) != Wildcard
    requires !Unconfigured(setting)
    ensures Gate(setting, clientIp) == Allow <==> Listed(setting, clientIp)
  {
    GateMatchesPolicy(setting, clientIp);
    WildcardShape(setting);
  }

  /** "10.0.0.1" configured: the local host 127.0.0.1 is denied. */
  lemma LoopbackDeniedWhenConfigured(setting: string)
    requires setting == "10.0.0.1"
    ensures Gate(setting, "127.0.0.1") == Deny403
  {
    assert '*' !in setting;
    if Strip(setting) == Wildcard {
      StripChars(setting, '*');
    }
    SplitNoSep(setting, Separator);
    StripBare(setting);
    assert !Unconfigured(setting) by {
      assert !(setting[0] == Separator || IsSpace(setting[0]));
    }
    UnlistedDenied(setting, "127.0.0.1");
  }

  /** Separators alone configure nothing: ",," admits the loopback names and
      nobody else. */
  lemma OnlySeparatorsAdmitLoopbackOnly(clientIp: string)
    ensures Gate(",,", clientIp) == Allow <==> clientIp in LoopbackHosts
  {
    assert Unconfigured(",,");
    if clientIp in LoopbackHosts {
      UnconfiguredAdmitsLoopback(",,", clientIp);
    } else {
      UnconfiguredDeniesOthers(",,", clientIp);
    }
  }

  /** The empty setting, the default when the variable is unset: 127.0.0.1 is
      admitted and 8.8.8.8 is denied. */
  lemma EmptySettingDevelopmentMode()
    ensures Gate("", "127.0.0.1") == Allow
    ensures Gate("", "8.8.8.8") == Deny403
  {
    UnconfiguredDeniesOthers("", "8.8.8.8");
  }
}
