/** `ChangeStateTo::DSL`: shorthands for building `set` options. */
module ChangeStateToDsl {
  import opened Values
  import opened EdgeOptions

  /**
   * `from_params_with_the_same_names(*args)`: each name maps to itself as a
   * symbol, so each attribute is copied from the `params` key of the same
   * name (or omitted when there is none).
   */
  function FromParamsWithTheSameNames(args: seq<Name>): map<Name, Descriptor>
  {
    map k | k in args :: DSym(k)
  }

  /** `blank(*keys)`: each key maps to nil. */
  function Blank(keys: seq<Name>): map<Name, Descriptor>
  {
    map k | k in keys :: DNil
  }

  /**
   * The hash holds exactly the listed names, each bound to its own symbol;
   * a repeated name gives one key.
   */
  lemma FromParamsWithTheSameNamesCopies(args: seq<Name>)
    ensures var r := FromParamsWithTheSameNames(args);
      && (forall k :: k in r <==> k in args)
      && (forall k :: k in r ==> r[k] == DSym(k))
      && |r.Keys| <= |args|
      && (forall i :: 0 <= i < |args| ==> args[i] in r && r[args[i]] == DSym(args[i]))
  {
    var r := FromParamsWithTheSameNames(args);
    assert r.Keys == set k | k in args;
    CardinalityBound(args);
  }

  /** The hash holds exactly the listed keys, each bound to nil; a repeated key gives one entry. */
  lemma BlankClears(keys: seq<Name>)
    ensures var r := Blank(keys);
      && (forall k :: k in r <==> k in keys)
      && (forall k :: k in r ==> r[k] == DNil)
      && |r.Keys| <= |keys|
      && (forall i :: 0 <= i < |keys| ==> keys[i] in r && r[keys[i]] == DNil)
  {
    var r := Blank(keys);
    assert r.Keys == set k | k in keys;
    CardinalityBound(keys);
  }

  /** `blank(*keys, extra)`: every listed key and the extra one map to nil. */
  lemma BlankWithExtra(keys: seq<Name>, extra: Name)
    ensures forall i :: 0 <= i < |keys| ==> keys[i] in Blank(keys + [extra]) && Blank(keys + [extra])[keys[i]] == DNil
    ensures extra in Blank(keys + [extra]) && Blank(keys + [extra])[extra] == DNil
  {
    BlankClears(keys + [extra]);
    forall i | 0 <= i < |keys|
      ensures keys[i] == (keys + [extra])[i]
    {
    }
    assert (keys + [extra])[|keys|] == extra;
  }

  /** The distinct elements of a list are no more than its length. */
  lemma {:induction false} CardinalityBound(s: seq<Name>)
    ensures |set k | k in s| <= |s|
  {
    if s != [] {
      CardinalityBound(s[1..]);
      assert (set k | k in s) == (set k | k in s[1..]) + {s[0]};
    }
  }
}
