/** The per-file normalisation factor: a first-match scan over the file's keys for the
    weighted cutflow record, whose third bin holds the event-count baseline. */
module Normalization {
  import opened Outcomes
  import opened CxxString

  const Prefix: string := "CutFlow_"
  const Suffix: string := "_noDalitz_weighted"

  /** One entry of the file's key listing: its name and, should the key be read, the
      content of bin 3 of the histogram it holds. */
  datatype Key = Key(name: CppString, nAll: real)

  /** The key-name filter as the code evaluates it: `substr(0,8)` first and, only when that
      equals the prefix, `substr(size()-18)` with unsigned wrap-around.
      Ok(true) selects the key, Ok(false) skips it, Err is the thrown `out_of_range`. */
  function KeyTest(name: CppString): Result<bool> {
    match Substr(name, 0, 8)
    case None => Err(SubstrOutOfRange(name))
    case Some(head) =>
      if head != Prefix then Ok(false)
      else
        match Substr(name, SizeSub(|name|, 18), NPos)
        case None => Err(SubstrOutOfRange(name))
        case Some(tail) => Ok(tail == Suffix)
  }

  /** What the filter means, stated with `HasPrefix`/`HasSuffix`: names without the prefix
      are skipped whatever their length (the `||` never reaches the second `substr`);
      names with the prefix but shorter than the suffix throw; the rest are selected exactly
      when they also end with the suffix. */
  lemma KeyTestMeaning(name: CppString)
    ensures KeyTest(name) ==
      if !HasPrefix(name, Prefix) then Ok(false)
      else if |name| < |Suffix| then Err(SubstrOutOfRange(name))
      else Ok(HasSuffix(name, Suffix))
  {
    assert |Prefix| == 8 && |Suffix| == 18;
    var head := name[..Min(8, |name|)];
    assert Substr(name, 0, 8) == Some(head);
    if |name| >= 8 {
      assert HasPrefix(name, Prefix) <==> head == Prefix;
    } else {
      assert !HasPrefix(name, Prefix) && head != Prefix;
    }
    if head == Prefix && |name| >= 18 {
      var pos := SizeSub(|name|, 18);
      assert pos == |name| - 18 && Min(NPos, |name| - pos) == 18;
      assert name[pos..pos + 18] == name[|name| - 18..];
      assert Substr(name, SizeSub(|name|, 18), NPos) == Some(name[|name| - 18..]);
    }
  }

  /** A key is selected exactly when its name starts with `CutFlow_` and ends with
      `_noDalitz_weighted`; it makes the scan fail exactly when it starts with `CutFlow_`
      and is shorter than 18 characters. */
  lemma KeySelectedIff(name: CppString)
    ensures KeyTest(name) == Ok(true) <==> HasPrefix(name, Prefix) && HasSuffix(name, Suffix)
    ensures KeyTest(name).Err? <==> HasPrefix(name, Prefix) && |name| < 18
    ensures !HasPrefix(name, Prefix) ==> KeyTest(name) == Ok(false)
  {
    KeyTestMeaning(name);
  }

  /** The prefix and the suffix may overlap: the 25-character name is selected. */
  lemma OverlappingNameSelected()
    ensures KeyTest("CutFlow_noDalitz_weighted") == Ok(true)
  {
    var name: CppString := "CutFlow_noDalitz_weighted";
    assert name[..8] == Prefix;
    assert name[|name| - 18..] == Suffix;
    KeySelectedIff(name);
  }

  /** A short name carrying the prefix makes `substr` throw rather than being skipped. */
  lemma ShortPrefixedNameThrows()
    ensures KeyTest("CutFlow_") == Err(SubstrOutOfRange("CutFlow_"))
    ensures KeyTest("CutFlow_x_weighted") == Ok(false)
    ensures KeyTest("Cut") == Ok(false)
  {
    KeyTestMeaning("CutFlow_");
    KeyTestMeaning("CutFlow_x_weighted");
    KeyTestMeaning("Cut");
  }

  /** The factor the scan leaves behind: 1 when no key is selected, otherwise `1/n_all` of
      the first selected key; the first key whose test throws ends the scan with that error. */
  function FactorOf(keys: seq<Key>): Result<real> {
    if |keys| == 0 then Ok(1.0)
    else
      match KeyTest(keys[0].name)
      case Err(e) => Err(e)
      case Ok(selected) =>
        if !selected then FactorOf(keys[1..])
        else if keys[0].nAll == 0.0 then Err(ZeroBaseline(keys[0].name))
        else Ok(1.0 / keys[0].nAll)
  }

  /** With every key skipped, the factor stays 1. */
  lemma {:induction false} NoSelectedKeyFactorOne(keys: seq<Key>)
    requires forall j :: 0 <= j < |keys| ==> KeyTest(keys[j].name) == Ok(false)
    ensures FactorOf(keys) == Ok(1.0)
  {
    if |keys| > 0 {
      NoSelectedKeyFactorOne(keys[1..]);
    }
  }

  /** The first key that is not skipped alone decides the factor. */
  lemma {:induction false} FirstDecisiveKeyDecides(keys: seq<Key>, i: nat)
    requires i < |keys|
    requires forall j :: 0 <= j < i ==> KeyTest(keys[j].name) == Ok(false)
    requires KeyTest(keys[i].name) != Ok(false)
    ensures KeyTest(keys[i].name).Err? ==> FactorOf(keys) == Err(KeyTest(keys[i].name).error)
    ensures KeyTest(keys[i].name) == Ok(true) ==>
      FactorOf(keys) == if keys[i].nAll == 0.0 then Err(ZeroBaseline(keys[i].name))
                        else Ok(1.0 / keys[i].nAll)
  {
    if i > 0 {
      FirstDecisiveKeyDecides(keys[1..], i - 1);
    }
  }

  /** Keys after the first decisive one are never examined: appending anything after it
      leaves the factor unchanged. */
  lemma {:induction false} LaterKeysIgnored(keys: seq<Key>, i: nat, rest: seq<Key>)
    requires i < |keys|
    requires forall j :: 0 <= j < i ==> KeyTest(keys[j].name) == Ok(false)
    requires KeyTest(keys[i].name) != Ok(false)
    ensures FactorOf(keys[..i + 1] + rest) == FactorOf(keys)
  {
    var longer := keys[..i + 1] + rest;
    assert forall j :: 0 <= j <= i ==> longer[j] == keys[j];
    FirstDecisiveKeyDecides(keys, i);
    FirstDecisiveKeyDecides(longer, i);
  }

  /** A typical weighted cutflow record name. */
  const ExampleCutflow: CppString := "CutFlow_mc_noDalitz_weighted"

  /** A listing whose only key is that record, with baseline 200, gives the factor 1/200. */
  lemma ExampleCutflowFactor()
    ensures FactorOf([Key(ExampleCutflow, 200.0)]) == Ok(0.005)
  {
    assert ExampleCutflow[..8] == Prefix;
    assert ExampleCutflow[|ExampleCutflow| - 18..] == Suffix;
    KeySelectedIff(ExampleCutflow);
    var keys := [Key(ExampleCutflow, 200.0)];
    assert KeyTest(keys[0].name) == Ok(true);
    assert 1.0 / 200.0 == 0.005;
  }

  /** The key loop of the source: `factor` starts at 1, skipped keys `continue`, the first
      selected key sets `factor = 1./n_all` and `break`s. */
  method ComputeFactor(keys: seq<Key>) returns (r: Result<real>)
    ensures r == FactorOf(keys)
  {
    var factor := 1.0;
    var i := 0;
    while i < |keys|
      invariant 0 <= i <= |keys|
      invariant factor == 1.0
      invariant FactorOf(keys[i..]) == FactorOf(keys)
    {
      assert keys[i..][0] == keys[i] && keys[i..][1..] == keys[i + 1..];
      var key := keys[i];
      var test := KeyTest(key.name);
      if test.Err? {
        return Err(test.error);
      }
      if !test.value {
        i := i + 1;
        continue;
      }
      if key.nAll == 0.0 {
        return Err(ZeroBaseline(key.name));
      }
      factor := 1.0 / key.nAll;
      break;
    }
    r := Ok(factor);
  }
}
