/** `prepareOptions` of the build tests: `{ k: v, ... }` becomes the command
    line arguments `['--k', v, ...]`. */
module BuildTestOptions {

  import opened Js

  /** An options object, as `Object.entries` lists it. */
  type Entries = seq<(string, Value)>

  /** `.reduce((acc, v) => acc.concat(v), [])`: each `[key, value]` pair is
      spread into the accumulator, the key as a string. */
  function Flatten(entries: Entries): (r: seq<Value>)
    ensures |r| == 2 * |entries|
    decreases |entries|
  {
    if entries == [] then []
    else
      var last := entries[|entries| - 1];
      Flatten(entries[..|entries| - 1]) + [Str(last.0), last.1]
  }

  /** `'--' + v` on a key. Keys are strings, so the other case never
      arises on a flattened list's even positions. */
  function Dashed(v: Value): Value {
    match v
    case Str(s) => Str("--" + s)
    case _ => v
  }

  /** `.map((v, i) => (i % 2 === 0) ? '--' + v : v)`. */
  function DashKeys(flat: seq<Value>): (r: seq<Value>)
    ensures |r| == |flat|
    ensures forall i :: 0 <= i < |flat| && i % 2 == 0 && flat[i].Str? ==> r[i] == Str("--" + flat[i].s)
    ensures forall i :: 0 <= i < |flat| && i % 2 == 1 ==> r[i] == flat[i]
  {
    seq(|flat|, i requires 0 <= i < |flat| => if i % 2 == 0 then Dashed(flat[i]) else flat[i])
  }

  /** `prepareOptions(options = {})`: None stands for a missing argument. */
  function PrepareOptions(options: Option<Entries>): (r: seq<Value>)
    ensures options.None? ==> r == []
    ensures options.Some? ==> |r| == 2 * |options.value|
  {
    var entries := match options case Some(e) => e case None => [];
    DashKeys(Flatten(entries))
  }

  /** The flattened list holds each key, then its value, in entry order. */
  lemma {:induction false} FlattenShape(entries: Entries)
    ensures |Flatten(entries)| == 2 * |entries|
    ensures forall i :: 0 <= i < |entries| ==>
      Flatten(entries)[2 * i] == Str(entries[i].0) && Flatten(entries)[2 * i + 1] == entries[i].1
    decreases |entries|
  {
    if entries != [] {
      var init := entries[..|entries| - 1];
      FlattenShape(init);
      assert forall i :: 0 <= i < |init| ==> init[i] == entries[i];
    }
  }

  /** Two arguments per entry, in entry order: `--key`, then the value
      unchanged. */
  lemma PrepareOptionsShape(entries: Entries)
    ensures |PrepareOptions(Some(entries))| == 2 * |entries|
    ensures forall i :: 0 <= i < |entries| ==>
      && PrepareOptions(Some(entries))[2 * i] == Str("--" + entries[i].0)
      && PrepareOptions(Some(entries))[2 * i + 1] == entries[i].1
  {
    FlattenShape(entries);
    var flat := Flatten(entries);
    var r := DashKeys(flat);
    assert PrepareOptions(Some(entries)) == r;
    forall i | 0 <= i < |entries|
      ensures r[2 * i] == Str("--" + entries[i].0) && r[2 * i + 1] == entries[i].1
    {
      EvenOdd(i);
    }
  }

  lemma EvenOdd(i: nat)
    ensures (2 * i) % 2 == 0 && (2 * i + 1) % 2 == 1
  {
  }

  /** No options at all, or an empty object, give no arguments. */
  lemma NoOptionsNoArguments()
    ensures PrepareOptions(None) == []
    ensures PrepareOptions(Some([])) == []
  {
  }
}
