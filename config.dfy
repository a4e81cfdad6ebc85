/**
 * `core/config.py`: the built-in defaults, the recursive merge of a
 * configuration file over them, and the reading of boolean switches.
 * Configuration dictionaries are `Record`s; nested dictionaries are `Obj`
 * values.
 */
module Config {
  import opened Common

  /** `_DEFAULTS`. */
  const Defaults: Record := map[
    "llm" := Obj(map["style_profile" := Str("concise")]),
    "retrieval" := Obj(map[
      "use_hybrid" := Bool(true),
      "alpha" := Real(0.60),
      "candidates_n" := Int(40),
      "final_k" := Int(8),
      "freshness_lambda_per_day" := Real(0.01)]),
    "reranker" := Obj(map["name" := Str("llm")]),
    "ui" := Obj(map["show_retrieved_context" := Bool(true)])]

  /** What `_deep_update(base, new)` stores under a key of `new`. */
  function Entry(base: Record, v: Value, k: string): Value
    decreases v, 1
  {
    if v.Obj? && k in base && base[k].Obj? then Obj(Merged(base[k].fields, v)) else v
  }

  /**
   * `_deep_update(base, new)` with `new` given as the dictionary value `update`:
   * base's keys, each key of `new` set to new's value, except that two
   * dictionaries under the same key are merged in turn.
   */
  function Merged(base: Record, update: Value): (r: Record)
    requires update.Obj?
    ensures r.Keys == base.Keys + update.fields.Keys
    decreases update, 0
  {
    map k | k in base.Keys + update.fields.Keys :: if k in update.fields then Entry(base, update.fields[k], k) else base[k]
  }

  /**
   * The merge keeps base's value under keys `new` lacks, takes new's value
   * unless both sides hold dictionaries, and merges those.
   */
  lemma MergedEntries(base: Record, update: Value)
    requires update.Obj?
    ensures forall k :: k in base && k !in update.fields ==> Merged(base, update)[k] == base[k]
    ensures forall k :: k in update.fields && !(update.fields[k].Obj? && k in base && base[k].Obj?) ==> Merged(base, update)[k] == update.fields[k]
    ensures forall k :: k in update.fields && update.fields[k].Obj? && k in base && base[k].Obj? ==>
      Merged(base, update)[k] == Obj(Merged(base[k].fields, update.fields[k]))
  {
  }

  /** Merging nothing leaves the base as it was. */
  lemma MergedNothing(base: Record)
    ensures Merged(base, Obj(map[])) == base
  {
  }

  /** Merging into nothing gives the new dictionary itself. */
  lemma MergedIntoNothing(update: Value)
    requires update.Obj?
    ensures Merged(map[], update) == update.fields
  {
  }

  /** A dictionary merged with itself is unchanged. */
  lemma {:induction false} MergedSelf(d: Value)
    requires d.Obj?
    ensures Merged(d.fields, d) == d.fields
    decreases d
  {
    forall k | k in d.fields ensures Merged(d.fields, d)[k] == d.fields[k] {
      var v := d.fields[k];
      if v.Obj? {
        MergedSelf(v);
      }
    }
  }

  /** Merging the same update twice is the same as merging it once. */
  lemma {:induction false} MergedIdempotent(base: Record, update: Value)
    requires update.Obj?
    ensures Merged(Merged(base, update), update) == Merged(base, update)
    decreases update
  {
    var once := Merged(base, update);
    forall k | k in once ensures Merged(once, update)[k] == once[k] {
      if k in update.fields {
        var v := update.fields[k];
        assert once[k] == Entry(base, v, k);
        assert Merged(once, update)[k] == Entry(once, v, k);
        if v.Obj? {
          if k in base && base[k].Obj? {
            MergedIdempotent(base[k].fields, v);
            assert once[k] == Obj(Merged(base[k].fields, v));
          } else {
            MergedSelf(v);
            assert once[k] == v == Obj(v.fields);
          }
        }
      }
    }
    assert Merged(once, update).Keys == once.Keys;
  }

  /** The merge after some keys of `new` have been handled by the loop. */
  function MergedSoFar(base: Record, update: Value, done: set<string>): (r: Record)
    requires update.Obj? && done <= update.fields.Keys
  {
    map k | k in base.Keys + done :: if k in done then Entry(base, update.fields[k], k) else base[k]
  }

  /** Handling key `k` next sets it to its merged entry; until then it holds base's value, if any. */
  lemma MergedSoFarStep(base: Record, update: Value, done: set<string>, k: string)
    requires update.Obj? && done <= update.fields.Keys && k in update.fields && k !in done
    ensures MergedSoFar(base, update, done + {k}) == MergedSoFar(base, update, done)[k := Entry(base, update.fields[k], k)]
    ensures k in MergedSoFar(base, update, done) <==> k in base
    ensures k in base ==> MergedSoFar(base, update, done)[k] == base[k]
  {
  }

  /**
   * `_deep_update`: copies `base`, then sets each key of `new` in turn,
   * recursing where both sides hold dictionaries. Neither input changes.
   */
  method DeepUpdate(base: Record, update: Value) returns (out: Record)
    requires update.Obj?
    ensures out == Merged(base, update)
    decreases update
  {
    out := base;
    var todo := update.fields.Keys;
    while todo != {}
      invariant todo <= update.fields.Keys
      invariant out == MergedSoFar(base, update, update.fields.Keys - todo)
      decreases todo
    {
      var k :| k in todo;
      MergedSoFarStep(base, update, update.fields.Keys - todo, k);
      assert update.fields.Keys - (todo - {k}) == (update.fields.Keys - todo) + {k};
      var v := update.fields[k];
      if v.Obj? && k in out && out[k].Obj? {
        var inner := DeepUpdate(out[k].fields, v);
        out := out[k := Obj(inner)];
      } else {
        out := out[k := v];
      }
      todo := todo - {k};
    }
  }

  /** The switch values `_to_bool` reads as true. */
  const TrueWords: set<string> := {"1", "true", "yes", "y", "on"}

  /** `_to_bool`: the stripped, lower-cased text is one of the true words. */
  function ToBool(v: string): (r: bool)
  {
    Lower(Strip(v)) in TrueWords
  }

  /** Case and surrounding whitespace do not change what `_to_bool` reads. */
  lemma ToBoolIgnoresCaseAndPadding(v: string)
    ensures ToBool(Upper(v)) == ToBool(v)
    ensures ToBool(Lower(v)) == ToBool(v)
    ensures ToBool(Strip(v)) == ToBool(v)
  {
    SameFoldedText(Upper(v), v);
    SameFoldedText(Lower(v), v);
    SameFoldedText(Strip(v), v);
  }

  /** Case-folded after stripping, `u` reads as `v`, so `_to_bool` agrees on them. */
  lemma SameFoldedText(u: string, v: string)
    requires u == Upper(v) || u == Lower(v) || u == Strip(v)
    ensures Lower(Strip(u)) == Lower(Strip(v))
  {
    LowerStrip(u);
    LowerStrip(v);
    LowerFolds(v);
    if u == Strip(v) {
      StripIdempotent(v);
    } else {
      assert Lower(u) == Lower(v);
    }
  }

  /** `str(b)` for a Python boolean. */
  function BoolStr(b: bool): string
  {
    if b then "True" else "False"
  }

  /**
   * A boolean written with `str` reads back as itself: the defaults survive
   * `_to_bool(os.getenv(..., str(default)))` when the variable is unset.
   */
  lemma ToBoolRoundTrip(b: bool)
    ensures ToBool(BoolStr(b)) == b
  {
    var s := BoolStr(b);
    StripUnpadded(s);
    var l := Lower(s);
    if b {
      assert l == "true";
    } else {
      assert l == "false";
    }
  }

  /** Text with no whitespace at either end is its own `strip()`. */
  lemma StripUnpadded(s: string)
    requires s != [] && !IsSpace(s[0]) && !IsSpace(s[|s| - 1])
    ensures Strip(s) == s
  {
    assert LStrip(s) == s;
  }
}
