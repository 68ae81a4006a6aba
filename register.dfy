/** The registration form (src/components/Register.js): the table of roles
    and the extra fields each asks for, the two label formatters, and the
    change handlers that update one key of the form state. Regular
    expressions without the `u` flag treat `\w` as `[A-Za-z0-9_]` and `[A-Z]`
    as the ASCII capitals, and `toUpperCase` of such a character only
    changes `a`-`z`. */
module Register {
  import opened Common

  // ---------------------------------------------------------------------
  // Characters
  // ---------------------------------------------------------------------

  predicate IsUpper(c: char) {
    'A' <= c <= 'Z'
  }

  predicate IsLower(c: char) {
    'a' <= c <= 'z'
  }

  /** `\w`. */
  predicate IsWordChar(c: char) {
    IsUpper(c) || IsLower(c) || ('0' <= c <= '9') || c == '_'
  }

  /** `toUpperCase` of a word character. */
  function ToUpper(c: char): (r: char)
    ensures IsLower(c) ==> IsUpper(r) && r as int == c as int - 32
    ensures !IsLower(c) ==> r == c
  {
    if IsLower(c) then (c as int - 32) as char else c
  }

  // ---------------------------------------------------------------------
  // formatFieldName (lines 54-59)
  // ---------------------------------------------------------------------

  function CountUpper(s: string): nat {
    if s == [] then 0 else (if IsUpper(s[0]) then 1 else 0) + CountUpper(s[1..])
  }

  /** `s` without its spaces. */
  function WithoutSpaces(s: string): string {
    if s == [] then [] else (if s[0] == ' ' then [] else [s[0]]) + WithoutSpaces(s[1..])
  }

  /** `.replace(/([A-Z])/g, " $1")`: a space goes in front of every capital,
      so the result is longer by the number of capitals. */
  function SpaceBeforeUpper(s: string): (r: string)
    ensures |r| == |s| + CountUpper(s)
  {
    if s == [] then []
    else (if IsUpper(s[0]) then [' ', s[0]] else [s[0]]) + SpaceBeforeUpper(s[1..])
  }

  /** Every capital in `r` has a space right before it. */
  predicate CapitalsSpaced(r: string) {
    forall i :: 0 <= i < |r| && IsUpper(r[i]) ==> i > 0 && r[i - 1] == ' '
  }

  /** Every capital of the spaced text has a space right before it. */
  lemma {:induction false} SpaceBeforeEveryCapital(s: string)
    ensures CapitalsSpaced(SpaceBeforeUpper(s))
  {
    if s != [] {
      SpaceBeforeEveryCapital(s[1..]);
      var head := if IsUpper(s[0]) then [' ', s[0]] else [s[0]];
      var rest := SpaceBeforeUpper(s[1..]);
      assert CapitalsSpaced(rest);
      var r := head + rest;
      assert SpaceBeforeUpper(s) == r;
      if rest != [] {
        assert !IsUpper(rest[0]);
      }
      forall i | 0 <= i < |r| && IsUpper(r[i])
        ensures i > 0 && r[i - 1] == ' '
      {
        if i >= |head| {
          assert r[i] == rest[i - |head|];
          assert r[i - 1] == rest[i - |head| - 1];
        } else {
          assert r[i] == head[i];
          if i == 1 {
            assert r[0] == head[0] == ' ';
          }
        }
      }
    }
  }

  lemma {:induction false} WithoutSpacesAppend(a: string, b: string)
    ensures WithoutSpaces(a + b) == WithoutSpaces(a) + WithoutSpaces(b)
  {
    if a == [] {
      assert a + b == b;
    } else {
      var head := if a[0] == ' ' then [] else [a[0]];
      assert (a + b)[0] == a[0];
      assert (a + b)[1..] == a[1..] + b;
      calc {
        WithoutSpaces(a + b);
        head + WithoutSpaces(a[1..] + b);
        { WithoutSpacesAppend(a[1..], b); }
        head + (WithoutSpaces(a[1..]) + WithoutSpaces(b));
        (head + WithoutSpaces(a[1..])) + WithoutSpaces(b);
        WithoutSpaces(a) + WithoutSpaces(b);
      }
    }
  }

  /** Only spaces are inserted: dropping all spaces from the result and
      from the input gives the same text. */
  lemma {:induction false} SpaceBeforeUpperOnlyAddsSpaces(s: string)
    ensures WithoutSpaces(SpaceBeforeUpper(s)) == WithoutSpaces(s)
  {
    if s != [] {
      var head := if IsUpper(s[0]) then [' ', s[0]] else [s[0]];
      SpaceBeforeUpperOnlyAddsSpaces(s[1..]);
      WithoutSpacesAppend(head, SpaceBeforeUpper(s[1..]));
      WithoutSpacesAppend([s[0]], s[1..]);
      assert s == [s[0]] + s[1..];
      if IsUpper(s[0]) {
        assert head == [' '] + [s[0]];
        WithoutSpacesAppend([' '], [s[0]]);
      }
    }
  }

  /** `.replace(/_/g, " ")`: every underscore becomes a space, nothing else changes. */
  function UnderscoreToSpace(s: string): (r: string)
    ensures |r| == |s|
    ensures forall i :: 0 <= i < |s| ==> r[i] == (if s[i] == '_' then ' ' else s[i])
    ensures '_' !in r
  {
    if s == [] then []
    else [if s[0] == '_' then ' ' else s[0]] + UnderscoreToSpace(s[1..])
  }

  /** `.replace(/^\w/, c => c.toUpperCase())`: only the first character, and
      only a word character, is upper-cased. */
  function CapitalizeFirst(s: string): (r: string)
    ensures |r| == |s|
    ensures s != [] ==> r[1..] == s[1..] && r[0] == (if IsWordChar(s[0]) then ToUpper(s[0]) else s[0])
  {
    if s != [] && IsWordChar(s[0]) then [ToUpper(s[0])] + s[1..] else s
  }

  /** The label gets one space per capital, keeps no underscore, and only
      its first character can differ from the spaced, underscore-free text. */
  function FormatFieldName(field: string): (r: string)
    ensures |r| == |field| + CountUpper(field)
    ensures '_' !in r
  {
    var mid := UnderscoreToSpace(SpaceBeforeUpper(field));
    var r := CapitalizeFirst(mid);
    assert r != [] ==> r[0] != '_';
    assert forall k :: 1 <= k < |r| ==> r[k] == mid[k];
    r
  }

  predicate AllLower(s: string) {
    forall i :: 0 <= i < |s| ==> IsLower(s[i])
  }

  lemma {:induction false} SpaceBeforeUpperAppend(a: string, b: string)
    ensures SpaceBeforeUpper(a + b) == SpaceBeforeUpper(a) + SpaceBeforeUpper(b)
  {
    if a == [] {
      assert a + b == b;
    } else {
      var head := if IsUpper(a[0]) then [' ', a[0]] else [a[0]];
      assert (a + b)[0] == a[0];
      assert (a + b)[1..] == a[1..] + b;
      calc {
        SpaceBeforeUpper(a + b);
        head + SpaceBeforeUpper(a[1..] + b);
        { SpaceBeforeUpperAppend(a[1..], b); }
        head + (SpaceBeforeUpper(a[1..]) + SpaceBeforeUpper(b));
        (head + SpaceBeforeUpper(a[1..])) + SpaceBeforeUpper(b);
        SpaceBeforeUpper(a) + SpaceBeforeUpper(b);
      }
    }
  }

  lemma {:induction false} SpaceBeforeUpperLower(s: string)
    requires AllLower(s)
    ensures SpaceBeforeUpper(s) == s
  {
    if s != [] {
      SpaceBeforeUpperLower(s[1..]);
    }
  }

  lemma {:induction false} UnderscoreToSpaceLower(s: string)
    requires AllLower(s)
    ensures UnderscoreToSpace(s) == s
  {
    if s != [] {
      UnderscoreToSpaceLower(s[1..]);
    }
  }

  lemma {:induction false} UnderscoreToSpaceAppend(a: string, b: string)
    ensures UnderscoreToSpace(a + b) == UnderscoreToSpace(a) + UnderscoreToSpace(b)
  {
    if a == [] {
      assert a + b == b;
    } else {
      assert (a + b)[0] == a[0];
      assert (a + b)[1..] == a[1..] + b;
      UnderscoreToSpaceAppend(a[1..], b);
    }
  }

  /** The spacing step on a camel-case name of two lower-case words. */
  lemma SpacedTwoWords(a: string, c: char, b: string)
    requires AllLower(a) && AllLower(b) && IsUpper(c)
    ensures SpaceBeforeUpper(a + [c] + b) == a + [' ', c] + b
  {
    SpaceBeforeUpperAppend(a + [c], b);
    SpaceBeforeUpperAppend(a, [c]);
    SpaceBeforeUpperLower(a);
    SpaceBeforeUpperLower(b);
    assert SpaceBeforeUpper([c]) == [' ', c];
  }

  /** Two lower-case words around a space and a capital hold no underscore. */
  lemma UnderscoreFreeTwoWords(a: string, c: char, b: string)
    requires AllLower(a) && AllLower(b) && IsUpper(c)
    ensures UnderscoreToSpace(a + [' ', c] + b) == a + [' ', c] + b
  {
    UnderscoreToSpaceAppend(a + [' ', c], b);
    UnderscoreToSpaceAppend(a, [' ', c]);
    UnderscoreToSpaceLower(a);
    UnderscoreToSpaceLower(b);
    assert UnderscoreToSpace([' ', c]) == [' ', c];
  }

  /** A camel-case name of two lower-case words, `a` and `c` + `b`: the
      label is `a` capitalised, a space, then `c` + `b`. */
  lemma FormatTwoWords(a: string, c: char, b: string)
    requires a != [] && AllLower(a) && AllLower(b) && IsUpper(c)
    ensures FormatFieldName(a + [c] + b) == [ToUpper(a[0])] + a[1..] + [' ', c] + b
  {
    var tail := [' ', c] + b;
    calc {
      FormatFieldName(a + [c] + b);
      CapitalizeFirst(UnderscoreToSpace(SpaceBeforeUpper(a + [c] + b)));
      { SpacedTwoWords(a, c, b); }
      CapitalizeFirst(UnderscoreToSpace(a + [' ', c] + b));
      { UnderscoreFreeTwoWords(a, c, b); }
      CapitalizeFirst(a + [' ', c] + b);
      { assert a + [' ', c] + b == a + tail; }
      CapitalizeFirst(a + tail);
      { CapitalizeFirstLower(a, tail); }
      [ToUpper(a[0])] + a[1..] + tail;
    }
  }

  lemma CapitalizeFirstLower(a: string, tail: string)
    requires a != [] && IsLower(a[0])
    ensures CapitalizeFirst(a + tail) == [ToUpper(a[0])] + a[1..] + tail
  {
    assert (a + tail)[0] == a[0];
    assert (a + tail)[1..] == a[1..] + tail;
  }

  /** The label of the police and bailiff badge field. */
  lemma BadgeNumberLabel(field: string)
    requires field == "badgeNumber"
    ensures FormatFieldName(field) == "Badge Number"
  {
    var a, b := "badge", "umber";
    calc {
      FormatFieldName(field);
      { assert field == a + ['N'] + b; }
      FormatFieldName(a + ['N'] + b);
      { FormatTwoWords(a, 'N', b); }
      [ToUpper(a[0])] + a[1..] + [' ', 'N'] + b;
      { assert ToUpper(a[0]) == 'B' && a[1..] == "adge"; }
      "Badge Number";
    }
  }

  /** A field starting with a capital gets a leading space, which `^\w`
      does not match, so its label keeps that space. */
  lemma LeadingCapitalKeepsSpace(field: string)
    requires field != [] && IsUpper(field[0])
    ensures FormatFieldName(field)[0] == ' '
  {
    var s := SpaceBeforeUpper(field);
    assert s[0] == ' ';
  }

  // ---------------------------------------------------------------------
  // The role label (line 132)
  // ---------------------------------------------------------------------

  /** `.replace(/\b\w/g, l => l.toUpperCase())`: a word character that does
      not follow a word character is upper-cased; `afterWord` says whether
      the character before `s` was a word character. */
  function CapitalizeWords(s: string, afterWord: bool): (r: string)
    ensures |r| == |s|
  {
    if s == [] then []
    else [if IsWordChar(s[0]) && !afterWord then ToUpper(s[0]) else s[0]] + CapitalizeWords(s[1..], IsWordChar(s[0]))
  }

  /** The character before index `i` of `s` is a word character, with
      `afterWord` standing for the one before `s`. */
  predicate FollowsWord(s: string, i: nat, afterWord: bool)
    requires i < |s|
  {
    if i == 0 then afterWord else IsWordChar(s[i - 1])
  }

  /** `r` is `s` with exactly the word characters at a word boundary (`\b\w`) upper-cased. */
  predicate WordStartsCapitalized(s: string, afterWord: bool, r: string) {
    && |r| == |s|
    && forall i :: 0 <= i < |s| ==>
         r[i] == (if IsWordChar(s[i]) && !FollowsWord(s, i, afterWord) then ToUpper(s[i]) else s[i])
  }

  /** The recursive definition does what the regular expression says. */
  lemma {:induction false} CapitalizeWordsMeaning(s: string, afterWord: bool)
    ensures WordStartsCapitalized(s, afterWord, CapitalizeWords(s, afterWord))
  {
    if s != [] {
      var w := IsWordChar(s[0]);
      CapitalizeWordsMeaning(s[1..], w);
      var rest := CapitalizeWords(s[1..], w);
      var r := CapitalizeWords(s, afterWord);
      assert WordStartsCapitalized(s[1..], w, rest);
      forall i | 0 <= i < |s|
        ensures r[i] == (if IsWordChar(s[i]) && !FollowsWord(s, i, afterWord) then ToUpper(s[i]) else s[i])
      {
        if i > 0 {
          assert r[i] == rest[i - 1];
          assert s[1..][i - 1] == s[i];
          assert FollowsWord(s[1..], i - 1, w) == FollowsWord(s, i, afterWord);
        }
      }
    }
  }

  /** The label of a role: underscores become spaces and each word starts
      with a capital; it keeps the role's length and has no underscore. */
  function RoleLabel(role: string): (r: string)
    ensures |r| == |role|
    ensures '_' !in r
  {
    var mid := UnderscoreToSpace(role);
    var r := CapitalizeWords(mid, false);
    CapitalizeWordsMeaning(mid, false);
    assert forall k :: 0 <= k < |r| ==> r[k] == mid[k] || r[k] == ToUpper(mid[k]);
    r
  }

  /** The word context after `x`, read from the context before it. */
  function AfterWord(x: string, afterWord: bool): bool {
    if x == [] then afterWord else IsWordChar(x[|x| - 1])
  }

  /** Capitalising a concatenation is capitalising its parts, the second
      in the context the first leaves. */
  lemma {:induction false} CapitalizeWordsAppend(x: string, y: string, afterWord: bool)
    ensures CapitalizeWords(x + y, afterWord) == CapitalizeWords(x, afterWord) + CapitalizeWords(y, AfterWord(x, afterWord))
  {
    if x == [] {
      assert x + y == y;
    } else {
      assert (x + y)[0] == x[0];
      assert (x + y)[1..] == x[1..] + y;
      var w := IsWordChar(x[0]);
      var head := [if w && !afterWord then ToUpper(x[0]) else x[0]];
      assert AfterWord(x[1..], w) == AfterWord(x, afterWord);
      calc {
        CapitalizeWords(x + y, afterWord);
        head + CapitalizeWords(x[1..] + y, w);
        { CapitalizeWordsAppend(x[1..], y, w); }
        head + (CapitalizeWords(x[1..], w) + CapitalizeWords(y, AfterWord(x[1..], w)));
        (head + CapitalizeWords(x[1..], w)) + CapitalizeWords(y, AfterWord(x, afterWord));
        CapitalizeWords(x, afterWord) + CapitalizeWords(y, AfterWord(x, afterWord));
      }
    }
  }

  /** Inside a word of lower-case letters nothing changes. */
  lemma {:induction false} CapitalizeWordsInsideWord(a: string)
    requires AllLower(a)
    ensures CapitalizeWords(a, true) == a
  {
    if a != [] {
      CapitalizeWordsInsideWord(a[1..]);
    }
  }

  /** Two lower-case words joined by `_` lose only the underscore. */
  lemma UnderscoreBetweenWords(a: string, b: string)
    requires AllLower(a) && AllLower(b)
    ensures UnderscoreToSpace(a + "_" + b) == a + " " + b
  {
    UnderscoreToSpaceAppend(a + "_", b);
    UnderscoreToSpaceAppend(a, "_");
    UnderscoreToSpaceLower(a);
    UnderscoreToSpaceLower(b);
    assert UnderscoreToSpace("_") == " ";
  }

  /** A lower-case word at a word boundary gets only its first letter capitalised. */
  lemma CapitalizeLowerWord(a: string)
    requires a != [] && AllLower(a)
    ensures CapitalizeWords(a, false) == [ToUpper(a[0])] + a[1..]
    ensures AfterWord(a, false)
  {
    CapitalizeWordsInsideWord(a[1..]);
  }

  /** A space between two texts is a word boundary: each side is
      capitalised on its own. */
  lemma CapitalizeAroundSpace(a: string, b: string)
    ensures CapitalizeWords(a + " " + b, false) == CapitalizeWords(a, false) + " " + CapitalizeWords(b, false)
  {
    calc {
      CapitalizeWords(a + " " + b, false);
      { CapitalizeWordsAppend(a + " ", b, false); assert (a + " ")[|a + " "| - 1] == ' '; }
      CapitalizeWords(a + " ", false) + CapitalizeWords(b, false);
      { CapitalizeWordsAppend(a, " ", false); assert CapitalizeWords(" ", AfterWord(a, false)) == " "; }
      CapitalizeWords(a, false) + " " + CapitalizeWords(b, false);
    }
  }

  /** Two lower-case words around a space both start with a capital. */
  lemma CapitalizeTwoWords(a: string, b: string)
    requires a != [] && b != [] && AllLower(a) && AllLower(b)
    ensures CapitalizeWords(a + " " + b, false) == [ToUpper(a[0])] + a[1..] + " " + [ToUpper(b[0])] + b[1..]
  {
    CapitalizeAroundSpace(a, b);
    CapitalizeLowerWord(a);
    CapitalizeLowerWord(b);
  }

  /** `a_b` for two lower-case words is labelled with both words capitalised
      and a space between them. */
  lemma RoleLabelTwoWords(a: string, b: string)
    requires a != [] && b != [] && AllLower(a) && AllLower(b)
    ensures RoleLabel(a + "_" + b) == [ToUpper(a[0])] + a[1..] + " " + [ToUpper(b[0])] + b[1..]
  {
    UnderscoreBetweenWords(a, b);
    CapitalizeTwoWords(a, b);
  }

  /** The label of the forensic expert in the role picker. */
  lemma ForensicExpertLabel(role: string)
    requires role == "forensic_expert"
    ensures RoleLabel(role) == "Forensic Expert"
  {
    var a, b := "forensic", "expert";
    calc {
      RoleLabel(role);
      { assert role == a + "_" + b; }
      RoleLabel(a + "_" + b);
      { RoleLabelTwoWords(a, b); }
      [ToUpper(a[0])] + a[1..] + " " + [ToUpper(b[0])] + b[1..];
      { assert ToUpper(a[0]) == 'F' && a[1..] == "orensic" && ToUpper(b[0]) == 'E' && b[1..] == "xpert"; }
      "Forensic Expert";
    }
  }

  // ---------------------------------------------------------------------
  // The roles table (lines 15-21)
  // ---------------------------------------------------------------------

  /** The roles in the order `Object.keys(roles)` lists them, each with its
      extra fields. */
  const Roles: seq<(string, seq<string>)> := [
    ("police", ["badgeNumber", "department", "stationAddress"]),
    ("bailiff", ["badgeNumber", "courtName"]),
    ("judge", ["judgeId", "courtName", "designation", "validTill"]),
    ("lawyer", ["barCertificate", "specialization", "validTill"]),
    ("forensic_expert", ["qualification", "areaOfExpertise"])
  ]

  const DefaultRole: string := "police"

  function RoleNames(): seq<string> {
    seq(|Roles|, i requires 0 <= i < |Roles| => Roles[i].0)
  }

  /** `table[key]` on a table of (key, value) pairs: the first match. */
  function Lookup(table: seq<(string, seq<string>)>, key: string): (r: Option<seq<string>>)
    ensures r.Some? <==> exists i :: 0 <= i < |table| && table[i].0 == key
    ensures r.Some? ==> exists i :: 0 <= i < |table| && table[i] == (key, r.value)
  {
    if table == [] then None
    else if table[0].0 == key then Some(table[0].1)
    else
      var r := Lookup(table[1..], key);
      assert forall i :: 1 <= i < |table| ==> table[1..][i - 1] == table[i];
      r
  }

  /** `roles[role]`: the extra fields of a role of the table, `None` for any other. */
  function FieldsFor(role: string): (r: Option<seq<string>>)
    ensures r.Some? <==> role in RoleNames()
  {
    var r := Lookup(Roles, role);
    assert forall i :: 0 <= i < |Roles| ==> RoleNames()[i] == Roles[i].0;
    r
  }

  /** Five roles, no role twice, and the default one of them. */
  lemma RolesTable()
    ensures RoleNames() == ["police", "bailiff", "judge", "lawyer", "forensic_expert"]
    ensures |RoleNames()| == 5
    ensures forall i, j :: 0 <= i < j < |RoleNames()| ==> RoleNames()[i] != RoleNames()[j]
    ensures DefaultRole in RoleNames()
    ensures FieldsFor(DefaultRole) == Some(["badgeNumber", "department", "stationAddress"])
  {
    var names := RoleNames();
    assert names == ["police", "bailiff", "judge", "lawyer", "forensic_expert"];
    assert names[0] == DefaultRole;
  }

  // ---------------------------------------------------------------------
  // The form state
  // ---------------------------------------------------------------------

  /** `userData` without `identityProof` (lines 7-13). */
  const InitialUserData: map<string, string> := map["name" := "", "email" := "", "password" := "", "role" := DefaultRole]

  class Registration {
    var userData: map<string, string>
    var identityProof: Option<LocalFile>
    var roleDetails: map<string, string>

    constructor ()
      ensures userData == InitialUserData && identityProof == None && roleDetails == map[]
    {
      userData := InitialUserData;
      identityProof := None;
      roleDetails := map[];
    }

    /** The extra fields shown for the selected role (line 138). */
    function ShownFields(): Option<seq<string>>
      reads this
    {
      if "role" in userData then FieldsFor(userData["role"]) else None
    }

    /** `handleInputChange` (lines 25-28): the input's key takes the value
        and every other key keeps its value. */
    method HandleInputChange(name: string, value: string)
      modifies this
      ensures name in userData && userData[name] == value
      ensures userData.Keys == old(userData).Keys + {name}
      ensures forall k :: k in old(userData) && k != name ==> userData[k] == old(userData)[k]
      ensures identityProof == old(identityProof) && roleDetails == old(roleDetails)
    {
      userData := userData[name := value];
    }

    /** `handleRoleDetailChange` (lines 30-33), the same for the role's fields. */
    method HandleRoleDetailChange(name: string, value: string)
      modifies this
      ensures name in roleDetails && roleDetails[name] == value
      ensures roleDetails.Keys == old(roleDetails).Keys + {name}
      ensures forall k :: k in old(roleDetails) && k != name ==> roleDetails[k] == old(roleDetails)[k]
      ensures userData == old(userData) && identityProof == old(identityProof)
    {
      roleDetails := roleDetails[name := value];
    }

    /** `handleFileUpload` (lines 35-37): the picked file, or none. */
    method HandleFileUpload(picked: Option<LocalFile>)
      modifies this
      ensures identityProof == picked
      ensures userData == old(userData) && roleDetails == old(roleDetails)
    {
      identityProof := picked;
    }
  }
}
