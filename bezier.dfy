/** The Bezier curve's resolution and cache-invalidation state.

    The program's `Bezier` holds a sampling `resolution` (an `f32`, here a
    `real`), an unused `size: u16` and a `modified` flag that marks the
    sampled curve as out of date. `set_resolution` only writes, and only
    raises `modified`, when the new value differs from the stored one. */
module Bezier {

  newtype u16 = v: int | 0 <= v < 0x1_0000

  /** The resolution the documentation asks for: `0.0 < value <= 1.0`,
      smaller meaning finer. Nothing in the program checks it. */
  predicate InDocumentedDomain(resolution: real)
  {
    0.0 < resolution <= 1.0
  }

  /** The fields of a `Bezier`, as a value. */
  datatype State = State(resolution: real, size: u16, modified: bool)

  /** The state `Bezier::new(resolution)` builds. */
  function Initial(resolution: real): (s: State)
    ensures s.resolution == resolution && s.size == 0 && !s.modified
  {
    State(resolution, 0, false)
  }

  /** The state after `set_resolution(resolution)` on `s`. */
  function Step(s: State, resolution: real): (t: State)
    ensures t.resolution == resolution && t.size == s.size
    ensures t.modified <==> s.modified || s.resolution != resolution
    ensures s.resolution == resolution ==> t == s
  {
    if s.resolution != resolution then s.(resolution := resolution, modified := true) else s
  }

  /** The state after calling `set_resolution` with each of `rs` in turn. */
  function Run(s: State, rs: seq<real>): State
    decreases |rs|
  {
    if rs == [] then s else Run(Step(s, rs[0]), rs[1..])
  }

  /** Calling `set_resolution` twice with one value is calling it once. */
  lemma StepIdempotent(s: State, resolution: real)
    ensures Step(Step(s, resolution), resolution) == Step(s, resolution)
  {
  }

  /** `set_resolution` never clears `modified`. */
  lemma StepKeepsModified(s: State, resolution: real)
    requires s.modified
    ensures Step(s, resolution).modified
  {
  }

  /** The stored resolution lies in the documented domain after a call
      exactly when the argument does: the call neither enforces nor repairs
      the domain. */
  lemma StepDomain(s: State, resolution: real)
    ensures InDocumentedDomain(Step(s, resolution).resolution) <==> InDocumentedDomain(resolution)
  {
  }

  /** After any run of calls the resolution is the last one asked for,
      `size` is untouched, and the curve is marked modified exactly when it
      already was or some call asked for a resolution other than the one
      the run started from. */
  lemma {:induction false} RunState(s: State, rs: seq<real>)
    ensures Run(s, rs).resolution == if rs == [] then s.resolution else rs[|rs| - 1]
    ensures Run(s, rs).size == s.size
    ensures Run(s, rs).modified <==>
              s.modified || exists i :: 0 <= i < |rs| && rs[i] != s.resolution
    decreases |rs|
  {
    if rs != [] {
      var t := Step(s, rs[0]);
      RunState(t, rs[1..]);
      if rs[0] == s.resolution {
        assert t == s;
        assert (exists i :: 0 <= i < |rs[1..]| && rs[1..][i] != s.resolution)
           <==> (exists i :: 0 <= i < |rs| && rs[i] != s.resolution) by {
          if exists i :: 0 <= i < |rs| && rs[i] != s.resolution {
            var i :| 0 <= i < |rs| && rs[i] != s.resolution;
            assert i != 0;
            assert rs[1..][i - 1] != s.resolution;
          }
          if exists i :: 0 <= i < |rs[1..]| && rs[1..][i] != s.resolution {
            var i :| 0 <= i < |rs[1..]| && rs[1..][i] != s.resolution;
            assert rs[i + 1] != s.resolution;
          }
        }
      } else {
        assert t.modified;
      }
    }
  }

  /** A run whose every call repeats the current resolution changes
      nothing. */
  lemma {:induction false} RunSameIsNoOp(s: State, rs: seq<real>)
    requires forall i :: 0 <= i < |rs| ==> rs[i] == s.resolution
    ensures Run(s, rs) == s
    decreases |rs|
  {
    if rs != [] {
      RunSameIsNoOp(Step(s, rs[0]), rs[1..]);
    }
  }

  class Bezier {
    var resolution: real
    var size: u16
    var modified: bool

    /** The fields, as a `State` value. */
    function CurrentState(): State
      reads this
    {
      State(resolution, size, modified)
    }

    /** `Bezier::new`: the resolution as given, `size` zero, and the curve
        not marked modified. */
    constructor (resolution: real)
      ensures CurrentState() == Initial(resolution)
      ensures this.resolution == resolution && size == 0 && !modified
    {
      this.resolution := resolution;
      size := 0;
      modified := false;
    }

    /** `Bezier::set_resolution`: equality-gated overwrite of `resolution`
        that raises `modified` when it writes. */
    method SetResolution(resolution: real)
      modifies this
      ensures CurrentState() == Step(old(CurrentState()), resolution)
      ensures this.resolution == resolution && size == old(size)
      ensures modified == (old(modified) || old(this.resolution) != resolution)
      ensures old(this.resolution) == resolution ==> unchanged(this)
    {
      if this.resolution != resolution {
        this.resolution := resolution;
        modified := true;
      }
    }
  }

  /** The program's test of `new` and `set_resolution`: a fresh curve of
      resolution 0.25 is not modified, and setting 0.15 marks it modified
      and stores 0.15. */
  method NewThenSetResolution() returns (b: Bezier, wasModified: bool)
    ensures !wasModified
    ensures b.modified && b.resolution == 0.15 && b.size == 0
  {
    b := new Bezier(0.25);
    assert b.resolution == 0.25;
    wasModified := b.modified;
    b.SetResolution(0.15);
  }

  /** Setting the same resolution on a fresh curve leaves it unmodified. */
  method NewThenSetSameResolution() returns (b: Bezier)
    ensures !b.modified && b.resolution == 0.25 && b.size == 0
  {
    b := new Bezier(0.25);
    b.SetResolution(0.25);
    b.SetResolution(0.25);
  }
}
