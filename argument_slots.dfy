/** The repeated fixed-width groups of idlj arguments: "-i dir" and "-d symbol"
    pairs, and "-pkgPrefix type prefix" triples.  All three argument builders
    append them in list order. */
module ArgumentSlots {
  import opened Common
  import opened SourceConfig

  /** flag v0 flag v1 ... : one (flag, value) pair per value. */
  function FlagPairs(flag: string, values: seq<string>): (r: seq<string>)
    decreases |values|
  {
    if values == [] then []
    else FlagPairs(flag, values[..|values| - 1]) + [flag, values[|values| - 1]]
  }

  /** Each value occupies exactly two slots, flag first, in list order. */
  lemma {:induction false} FlagPairsLayout(flag: string, values: seq<string>)
    ensures |FlagPairs(flag, values)| == 2 * |values|
    ensures forall k :: 0 <= k < |values| ==>
      FlagPairs(flag, values)[2 * k] == flag && FlagPairs(flag, values)[2 * k + 1] == values[k]
    decreases |values|
  {
    if values != [] {
      FlagPairsLayout(flag, values[..|values| - 1]);
    }
  }

  /** "-pkgPrefix" type prefix, once per configured prefix. */
  function PrefixTriples(prefixes: seq<PackagePrefix>): (r: seq<string>)
    decreases |prefixes|
  {
    if prefixes == [] then []
    else
      var p := prefixes[|prefixes| - 1];
      PrefixTriples(prefixes[..|prefixes| - 1]) + ["-pkgPrefix", p.typeName, p.prefix]
  }

  /** Each prefix occupies exactly three slots, in list order. */
  lemma {:induction false} PrefixTriplesLayout(prefixes: seq<PackagePrefix>)
    ensures |PrefixTriples(prefixes)| == 3 * |prefixes|
    ensures forall k :: 0 <= k < |prefixes| ==>
      && PrefixTriples(prefixes)[3 * k] == "-pkgPrefix"
      && PrefixTriples(prefixes)[3 * k + 1] == prefixes[k].typeName
      && PrefixTriples(prefixes)[3 * k + 2] == prefixes[k].prefix
    decreases |prefixes|
  {
    if prefixes != [] {
      PrefixTriplesLayout(prefixes[..|prefixes| - 1]);
    }
  }

  /** Wherever the pairs sit inside a longer vector, each value follows its flag. */
  lemma FlagPairsWithin(r: seq<string>, h: nat, flag: string, values: seq<string>)
    requires h + 2 * |values| <= |r| && r[h..h + 2 * |values|] == FlagPairs(flag, values)
    ensures forall k :: 0 <= k < |values| ==> r[h + 2 * k] == flag && r[h + 2 * k + 1] == values[k]
  {
    FlagPairsLayout(flag, values);
    forall k | 0 <= k < |values|
      ensures r[h + 2 * k] == flag && r[h + 2 * k + 1] == values[k]
    {
      assert r[h + 2 * k] == r[h..h + 2 * |values|][2 * k];
      assert r[h + 2 * k + 1] == r[h..h + 2 * |values|][2 * k + 1];
    }
  }

  /** Wherever the triples sit inside a longer vector, they keep their layout. */
  lemma PrefixTriplesWithin(r: seq<string>, h: nat, prefixes: seq<PackagePrefix>)
    requires h + 3 * |prefixes| <= |r| && r[h..h + 3 * |prefixes|] == PrefixTriples(prefixes)
    ensures forall k :: 0 <= k < |prefixes| ==>
      && r[h + 3 * k] == "-pkgPrefix"
      && r[h + 3 * k + 1] == prefixes[k].typeName
      && r[h + 3 * k + 2] == prefixes[k].prefix
  {
    PrefixTriplesLayout(prefixes);
    forall k | 0 <= k < |prefixes|
      ensures && r[h + 3 * k] == "-pkgPrefix"
              && r[h + 3 * k + 1] == prefixes[k].typeName
              && r[h + 3 * k + 2] == prefixes[k].prefix
    {
      assert r[h + 3 * k] == r[h..h + 3 * |prefixes|][3 * k];
      assert r[h + 3 * k + 1] == r[h..h + 3 * |prefixes|][3 * k + 1];
      assert r[h + 3 * k + 2] == r[h..h + 3 * |prefixes|][3 * k + 2];
    }
  }

  /** The symbols of a list of defines, in order. */
  function Symbols(defines: seq<Define>): (r: seq<string>)
    ensures |r| == |defines|
    ensures forall k :: 0 <= k < |defines| ==> r[k] == defines[k].symbol
  {
    seq(|defines|, k requires 0 <= k < |defines| => defines[k].symbol)
  }

  const DEFINE_VALUE_UNSUPPORTED := "idlj compiler unable to define symbol values"

  /** idlj can only define symbols without values: a define with a value is
      rejected, otherwise every define becomes "-d symbol". */
  function DefineArgs(defines: seq<Define>): (r: Result<seq<string>>)
    ensures r.Failure? <==> exists k :: 0 <= k < |defines| && defines[k].value.Some?
    ensures r.Failure? ==> r.error == MojoExecution(DEFINE_VALUE_UNSUPPORTED)
    ensures r.Success? ==> r.value == FlagPairs("-d", Symbols(defines))
  {
    if exists k :: 0 <= k < |defines| && defines[k].value.Some? then
      Failure(MojoExecution(DEFINE_VALUE_UNSUPPORTED))
    else
      Success(FlagPairs("-d", Symbols(defines)))
  }

  /** Appends one (flag, value) pair per value, by a loop of appends. */
  method AppendFlagPairs(args: seq<string>, flag: string, values: seq<string>) returns (r: seq<string>)
    ensures r == args + FlagPairs(flag, values)
  {
    r := args;
    var k := 0;
    while k < |values|
      invariant 0 <= k <= |values|
      invariant r == args + FlagPairs(flag, values[..k])
    {
      assert values[..k + 1][..k] == values[..k];
      r := r + [flag, values[k]];
      k := k + 1;
    }
    assert values[..k] == values;
  }

  /** Appends "-pkgPrefix" type prefix per prefix, by a loop of appends. */
  method AppendPrefixTriples(args: seq<string>, prefixes: seq<PackagePrefix>) returns (r: seq<string>)
    ensures r == args + PrefixTriples(prefixes)
  {
    r := args;
    var k := 0;
    while k < |prefixes|
      invariant 0 <= k <= |prefixes|
      invariant r == args + PrefixTriples(prefixes[..k])
    {
      assert prefixes[..k + 1][..k] == prefixes[..k];
      r := r + ["-pkgPrefix", prefixes[k].typeName, prefixes[k].prefix];
      k := k + 1;
    }
    assert prefixes[..k] == prefixes;
  }

  /** Appends "-d symbol" per define, failing at the first define with a value. */
  method AppendDefines(args: seq<string>, defines: seq<Define>) returns (r: Result<seq<string>>)
    ensures DefineArgs(defines).Failure? ==> r == Failure(DefineArgs(defines).error)
    ensures DefineArgs(defines).Success? ==> r == Success(args + DefineArgs(defines).value)
  {
    var acc := args;
    var k := 0;
    while k < |defines|
      invariant 0 <= k <= |defines|
      invariant forall j :: 0 <= j < k ==> defines[j].value.None?
      invariant acc == args + FlagPairs("-d", Symbols(defines[..k]))
    {
      if defines[k].value.Some? {
        return Failure(MojoExecution(DEFINE_VALUE_UNSUPPORTED));
      }
      assert defines[..k + 1][..k] == defines[..k];
      assert Symbols(defines[..k + 1]) == Symbols(defines[..k]) + [defines[k].symbol];
      acc := acc + ["-d", defines[k].symbol];
      k := k + 1;
    }
    assert defines[..k] == defines;
    r := Success(acc);
  }
}
