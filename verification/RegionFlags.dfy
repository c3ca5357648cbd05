/** The two flag parsers of cmd/turnfly/main.go that establish the inputs of `Deploy`. */
module RegionFlags {
  import opened Wrappers
  import opened Text

  function Trims(parts: seq<string>): (r: seq<string>)
    ensures |r| == |parts| && forall i :: 0 <= i < |r| ==> r[i] == Trim(parts[i])
  {
    seq(|parts|, i requires 0 <= i < |parts| => Trim(parts[i]))
  }

  function NonEmpty(s: seq<string>): seq<string> {
    if s == [] then [] else var n := |s| - 1; NonEmpty(s[..n]) + (if s[n] != "" then [s[n]] else [])
  }

  /** The non-blank parts, trimmed. */
  function NonBlank(parts: seq<string>): seq<string> {
    NonEmpty(Trims(parts))
  }

  function RegionsOf(flag: string): Result<seq<string>, string> {
    var regions := NonBlank(Split(flag, ','));
    if regions == [] then Failure("at least one region is required") else Success(regions)
  }

  method ParseRegionList(flag: string) returns (r: Result<seq<string>, string>)
    ensures r == RegionsOf(flag)
  {
    var parts := Split(flag, ',');
    var clean: seq<string> := [];
    for i := 0 to |parts|
      invariant clean == NonEmpty(Trims(parts)[..i])
    {
      var region := Trim(parts[i]);
      if region != "" {
        clean := clean + [region];
      }
      assert Trims(parts)[..i + 1][..i] == Trims(parts)[..i];
    }
    assert Trims(parts)[..|parts|] == Trims(parts);
    return if |clean| == 0 then Failure("at least one region is required") else Success(clean);
  }

  lemma {:induction false} NonEmptyMembers(s: seq<string>, r: string)
    ensures r in NonEmpty(s) <==> r != "" && r in s
  {
    if s != [] {
      var n := |s| - 1;
      NonEmptyMembers(s[..n], r);
      assert r in s <==> r in s[..n] || r == s[n];
    }
  }

  lemma NonBlankParts(parts: seq<string>)
    ensures forall r :: r in NonBlank(parts) ==> r != "" && Trimmed(r)
    ensures forall r :: r in NonBlank(parts) <==> r != "" && exists i :: 0 <= i < |parts| && r == Trim(parts[i])
  {
    forall r
      ensures r in NonBlank(parts) <==> r != "" && exists i :: 0 <= i < |parts| && r == Trim(parts[i])
      ensures r in NonBlank(parts) ==> Trimmed(r)
    {
      NonEmptyMembers(Trims(parts), r);
      if i :| 0 <= i < |parts| && r == Trim(parts[i]) {
        assert r == Trims(parts)[i];
        TrimIsTrimmed(parts[i]);
      }
    }
  }

  /** The parsed regions are trimmed, not blank and without commas; the flag is refused exactly if it holds none. */
  lemma RegionsAreTrimmed(flag: string)
    ensures RegionsOf(flag).Success? ==> forall r :: r in RegionsOf(flag).value ==> r != "" && Trimmed(r)
    ensures RegionsOf(flag).Success? <==> exists i :: 0 <= i < |Split(flag, ',')| && Trim(Split(flag, ',')[i]) != ""
  {
    var parts := Split(flag, ',');
    NonBlankParts(parts);
    if i :| 0 <= i < |parts| && Trim(parts[i]) != "" {
      assert Trim(parts[i]) in NonBlank(parts);
    }
    if NonBlank(parts) != [] {
      var r := NonBlank(parts)[0];
      assert r in NonBlank(parts);
      var i :| 0 <= i < |parts| && r == Trim(parts[i]);
      assert Trim(Split(flag, ',')[i]) != "";
    }
  }

  lemma {:induction false} NonEmptyAppend(a: seq<string>, b: seq<string>)
    ensures NonEmpty(a + b) == NonEmpty(a) + NonEmpty(b)
    decreases |b|
  {
    if b == [] {
      assert a + b == a;
    } else {
      var n := |b| - 1;
      NonEmptyAppend(a, b[..n]);
      assert (a + b)[..|a| + n] == a + b[..n];
    }
  }

  /** The regions a flag names, none if it is refused. */
  function Regions(flag: string): seq<string> {
    var r := RegionsOf(flag);
    if r.Success? then r.value else []
  }

  /**
   A flag without a comma names one region, its text without the white space around it, or
   none; two flags joined by a comma name the regions of the first and then those of the
   second.  So the regions come in the order of the flag, repetitions included.
   */
  lemma RegionsInOrder(flag: string, more: string)
    ensures ',' !in flag ==> Regions(flag) == if Trim(flag) == "" then [] else [Trim(flag)]
    ensures Regions(flag + "," + more) == Regions(flag) + Regions(more)
  {
    SplitAppend(flag, more, ',');
    NonBlankAppend(Split(flag, ','), Split(more, ','));
    if ',' !in flag {
      SplitNone(flag, ',');
      NonBlankOne(flag);
    }
  }

  lemma NonBlankAppend(a: seq<string>, b: seq<string>)
    ensures NonBlank(a + b) == NonBlank(a) + NonBlank(b)
  {
    assert Trims(a + b) == Trims(a) + Trims(b);
    NonEmptyAppend(Trims(a), Trims(b));
  }

  lemma NonBlankOne(part: string)
    ensures NonBlank([part]) == if Trim(part) == "" then [] else [Trim(part)]
  {
    assert Trims([part]) == [Trim(part)];
    NonEmptyOne(Trim(part));
  }

  lemma NonEmptyOne(r: string)
    ensures NonEmpty([r]) == if r == "" then [] else [r]
  {
    assert [r][..0] == [];
  }

  // ----- --env KEY=VALUE -----

  /** The map built from the flags, later ones winning; the first bad flag is the error. */
  function EnvOf(flags: seq<string>): Result<map<string, string>, string> {
    if flags == [] then Success(map[])
    else
      var n := |flags| - 1;
      var before := EnvOf(flags[..n]);
      if before.Failure? then before
      else
        var parts := SplitTwo(flags[n], '=');
        if |parts| != 2 || parts[0] == "" then Failure(flags[n])
        else Success(before.value[parts[0] := parts[1]])
  }

  /** A parse that fails stays failed however many flags follow. */
  lemma {:induction false} EnvErrorStays(flags: seq<string>, n: nat)
    requires n <= |flags| && EnvOf(flags[..n]).Failure?
    ensures EnvOf(flags) == EnvOf(flags[..n])
    decreases |flags|
  {
    if n < |flags| {
      var last := |flags| - 1;
      assert flags[..last][..n] == flags[..n];
      EnvErrorStays(flags[..last], n);
    } else {
      assert flags[..n] == flags;
    }
  }

  method ParseEnvFlags(flags: seq<string>) returns (r: Result<map<string, string>, string>)
    ensures r == EnvOf(flags)
  {
    var env: map<string, string> := map[];
    for i := 0 to |flags|
      invariant EnvOf(flags[..i]) == Success(env)
    {
      assert flags[..i + 1][..i] == flags[..i];
      var parts := SplitTwo(flags[i], '=');
      if |parts| != 2 || parts[0] == "" {
        EnvErrorStays(flags, i + 1);
        return Failure(flags[i]);
      }
      env := env[parts[0] := parts[1]];
    }
    assert flags[..|flags|] == flags;
    return Success(env);
  }

  /** A last flag `k=v` sets `k` to `v`, equals signs in `v` included. */
  lemma EnvFlagRoundTrip(flags: seq<string>, k: string, v: string)
    requires '=' !in k && k != "" && EnvOf(flags).Success?
    ensures EnvOf(flags + [k + "=" + v]) == Success(EnvOf(flags).value[k := v])
  {
    var all, flag := flags + [k + "=" + v], k + "=" + v;
    assert all[..|all| - 1] == flags;
    BeforeStops(k, v, '=');
    assert flag[|k| + 1..] == v;
    assert SplitTwo(flag, '=') == [k, v];
  }

  /** The parser never yields a nil map, and an empty one exactly when there are no flags. */
  lemma EnvEmptyIff(flags: seq<string>)
    requires EnvOf(flags).Success?
    ensures EnvOf(flags).value == map[] <==> flags == []
  {
    if flags != [] {
      var parts := SplitTwo(flags[|flags| - 1], '=');
      assert parts[0] in EnvOf(flags).value;
    }
  }

  /** The flag holds an equals sign, and does not start with one. */
  predicate HasKey(flag: string) {
    && (exists i :: 1 <= i < |flag| && flag[i] == '=')
    && flag[0] != '='
  }

  /** The flag starts with `k` and an equals sign, and `k` holds none. */
  predicate Sets(flag: string, k: string) {
    '=' !in k && |k| < |flag| && flag[..|k|] == k && flag[|k|] == '='
  }

  lemma SplitFlag(flag: string)
    ensures var parts := SplitTwo(flag, '=');
            && (|parts| == 2 && parts[0] != "" <==> HasKey(flag))
            && (HasKey(flag) ==> forall k :: Sets(flag, k) <==> k == parts[0])
            && (HasKey(flag) ==> parts[1] == flag[|parts[0]| + 1..])
  {
    var b := Before(flag, '=');
    if HasKey(flag) {
      forall k | Sets(flag, k)
        ensures k == b
      {
        BeforeStops(k, flag[|k| + 1..], '=');
        assert flag == k + "=" + flag[|k| + 1..];
      }
    }
  }

  /** The first flag that has no key. */
  ghost predicate FirstBad(flags: seq<string>, i: nat) {
    i < |flags| && !HasKey(flags[i]) && forall j :: 0 <= j < i ==> HasKey(flags[j])
  }

  /** The last flag that sets `k`. */
  ghost predicate LastToSet(flags: seq<string>, k: string, i: nat) {
    i < |flags| && Sets(flags[i], k) && forall j :: i < j < |flags| ==> !Sets(flags[j], k)
  }

  /**
   The flags parse if and only if each has a key before its first equals sign; otherwise
   the error names the first that has none.
   */
  lemma {:induction false} EnvParsesIff(flags: seq<string>)
    ensures EnvOf(flags).Success? <==> forall i :: 0 <= i < |flags| ==> HasKey(flags[i])
    ensures EnvOf(flags).Failure? ==> exists i: nat :: FirstBad(flags, i) && EnvOf(flags).error == flags[i]
  {
    if flags != [] {
      var n := |flags| - 1;
      EnvParsesIff(flags[..n]);
      SplitFlag(flags[n]);
      assert forall i :: 0 <= i < n ==> flags[..n][i] == flags[i];
      if EnvOf(flags[..n]).Failure? {
        var i: nat :| FirstBad(flags[..n], i) && EnvOf(flags).error == flags[..n][i];
        assert FirstBad(flags, i);
      } else if !HasKey(flags[n]) {
        assert FirstBad(flags, n);
      }
    }
  }

  /** Each key has the value of the last flag that sets it, and there are no other keys. */
  lemma {:induction false} EnvIsLastSet(flags: seq<string>, k: string)
    requires EnvOf(flags).Success?
    ensures var env := EnvOf(flags).value;
            && (k in env <==> exists i: nat :: LastToSet(flags, k, i))
            && (forall i: nat :: LastToSet(flags, k, i) ==> k in env && env[k] == flags[i][|k| + 1..])
  {
    if flags != [] {
      var n := |flags| - 1;
      EnvIsLastSet(flags[..n], k);
      SplitFlag(flags[n]);
      LastToSetSnoc(flags, k);
      if Sets(flags[n], k) {
        assert LastToSet(flags, k, n);
      } else if k in EnvOf(flags).value {
        var i: nat :| LastToSet(flags[..n], k, i);
        assert LastToSet(flags, k, i);
      }
    }
  }

  lemma LastToSetSnoc(flags: seq<string>, k: string)
    requires flags != []
    ensures var n := |flags| - 1;
            forall i: nat :: LastToSet(flags, k, i) <==>
              if Sets(flags[n], k) then i == n else i < n && LastToSet(flags[..n], k, i)
  {
    var n := |flags| - 1;
    forall i: nat
      ensures LastToSet(flags, k, i) <==> if Sets(flags[n], k) then i == n else i < n && LastToSet(flags[..n], k, i)
    {
      assert forall j :: 0 <= j < n ==> flags[..n][j] == flags[j];
    }
  }
}
