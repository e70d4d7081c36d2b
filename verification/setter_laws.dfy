/**
 Laws of the fluent setters (src/mount_options.rs, `uid` … `custom_options`):
 each overwrites exactly its own field, the last call on a field wins, calls
 on different fields commute, so a chain of calls is determined by the last
 value it gives each field.
 */
module SetterLaws {
  import opened Optional
  import opened MountOptions

  /** Two option records that agree on every field are the same record. */
  lemma GetDeterminesOptions(a: MountOptions, b: MountOptions)
    requires forall f :: Get(a, f) == Get(b, f)
    ensures a == b
  {
    assert Get(a, Uid) == Get(b, Uid);
    assert Get(a, Gid) == Get(b, Gid);
    assert Get(a, FsName) == Get(b, FsName);
    assert Get(a, Rootmode) == Get(b, Rootmode);
    assert Get(a, AllowRoot) == Get(b, AllowRoot);
    assert Get(a, AllowOther) == Get(b, AllowOther);
    assert Get(a, ReadOnly) == Get(b, ReadOnly);
    assert Get(a, Nonempty) == Get(b, Nonempty);
    assert Get(a, DefaultPermissions) == Get(b, DefaultPermissions);
    assert Get(a, DontMask) == Get(b, DontMask);
    assert Get(a, NoOpenSupport) == Get(b, NoOpenSupport);
    assert Get(a, NoOpenDirSupport) == Get(b, NoOpenDirSupport);
    assert Get(a, HandleKillpriv) == Get(b, HandleKillpriv);
    assert Get(a, WriteBack) == Get(b, WriteBack);
    assert Get(a, ForceReaddirPlus) == Get(b, ForceReaddirPlus);
    assert Get(a, CustomOptions) == Get(b, CustomOptions);
  }

  /** The value the last setter on `f` in the chain stores, if any setter touches `f`. */
  function LastSet(setters: seq<Setter>, f: Field): Option<Value>
    decreases |setters|
  {
    if |setters| == 0 then None
    else if FieldOf(setters[|setters| - 1]) == f then Some(Stored(setters[|setters| - 1]))
    else LastSet(setters[..|setters| - 1], f)
  }

  /** After a chain of setters each field holds its last stored value, or its old one. */
  lemma {:induction false} ApplyAllField(o: MountOptions, setters: seq<Setter>, f: Field)
    ensures Get(ApplyAll(o, setters), f) == LastSet(setters, f).UnwrapOr(Get(o, f))
    decreases |setters|
  {
    if |setters| > 0 {
      var front := setters[..|setters| - 1];
      var s := setters[|setters| - 1];
      ApplyAllField(o, front, f);
      ApplyWritesField(ApplyAll(o, front), s);
      if FieldOf(s) != f {
        ApplyKeepsField(ApplyAll(o, front), s, f);
      }
    }
  }

  /**
   Two chains that leave the same last value in every field build the same
   options, whatever order the calls came in.
   */
  lemma ChainOrderIrrelevant(o: MountOptions, xs: seq<Setter>, ys: seq<Setter>)
    requires forall f :: LastSet(xs, f) == LastSet(ys, f)
    ensures ApplyAll(o, xs) == ApplyAll(o, ys)
  {
    forall f ensures Get(ApplyAll(o, xs), f) == Get(ApplyAll(o, ys), f) {
      ApplyAllField(o, xs, f);
      ApplyAllField(o, ys, f);
    }
    GetDeterminesOptions(ApplyAll(o, xs), ApplyAll(o, ys));
  }

  lemma ApplyPair(o: MountOptions, s: Setter, t: Setter)
    ensures ApplyAll(o, [s, t]) == Apply(Apply(o, s), t)
  {
    assert [s, t][..1] == [s];
    assert [s][..0] == [];
    assert ApplyAll(o, [s]) == Apply(o, s);
  }

  /** Setting a field twice is setting it once, to the last value. */
  lemma SetTwice(o: MountOptions, first: Setter, second: Setter)
    requires FieldOf(first) == FieldOf(second)
    ensures Apply(Apply(o, first), second) == Apply(o, second)
  {
    ApplyPair(o, first, second);
    assert ApplyAll(o, [second]) == Apply(o, second) by {
      assert [second][..0] == [];
    }
    forall f ensures LastSet([first, second], f) == LastSet([second], f) {
      assert [first, second][..1] == [first];
      assert [first][..0] == [] && [second][..0] == [];
    }
    ChainOrderIrrelevant(o, [first, second], [second]);
  }

  /** Setters on different fields may be called in either order. */
  lemma SettersCommute(o: MountOptions, s: Setter, t: Setter)
    requires FieldOf(s) != FieldOf(t)
    ensures Apply(Apply(o, s), t) == Apply(Apply(o, t), s)
  {
    ApplyPair(o, s, t);
    ApplyPair(o, t, s);
    forall f ensures LastSet([s, t], f) == LastSet([t, s], f) {
      assert [s, t][..1] == [s] && [t, s][..1] == [t];
      assert [s][..0] == [] && [t][..0] == [];
    }
    ChainOrderIrrelevant(o, [s, t], [t, s]);
  }

  /** Setting a field to the value it already holds changes nothing. */
  lemma SetToCurrentValue(o: MountOptions, s: Setter)
    requires Get(o, FieldOf(s)) == Stored(s)
    ensures Apply(o, s) == o
  {
    ApplyWritesField(o, s);
    ApplyKeepsOtherFields(o, s);
    GetDeterminesOptions(Apply(o, s), o);
  }

  /** Turning `allow_other` on and off again is as if it had never been set. */
  lemma AllowOtherOnThenOff(o: MountOptions)
    requires !o.allowOther
    ensures Apply(Apply(o, SetAllowOther(true)), SetAllowOther(false)) == o
  {
    SetTwice(o, SetAllowOther(true), SetAllowOther(false));
    SetToCurrentValue(o, SetAllowOther(false));
  }
}
