/**
 * Error taxonomy of the RF cascade tool, the Result/Outcome wrappers used in
 * place of exceptions, and the two argument validators (`validate_arg`,
 * `verify_kwargs`).
 */
module Errors {

  /** One constructor per exception the core can raise. */
  datatype Error =
    | DuplicateParameter(name: string)                 // add_parameter: name already present
    | LengthMismatch                                   // add_parameter: |freqs| != |values|
    | MissingParameter(name: string)                   // get_parameter: no such name
    | EmptyCurve                                       // min()/max() of an empty frequency list
    | InvalidArgument(arg: string, valid: seq<string>) // validate_arg (an InvalidArgumentError)
    | MissingKeys(keys: seq<string>)                   // verify_kwargs (an InvalidArgumentError)
    | UnexpectedKeyword                                // TypeError: unknown keyword for Tolerance
    | WrongArgumentType(key: string)                   // AttributeError/TypeError on a mistyped keyword
    | MissingMean                                      // normal sampling without a mean
    | ZeroDivision                                     // ZeroDivisionError
    | MathDomain                                       // math.log10 of a non-positive number
    | IndexOutOfRange                                  // IndexError: comp_data[idx - 1], or line[-1] of ""
    | InvalidComponentType(typeName: string, valid: seq<string>)
    | UnboundComponentType(typeName: string)           // KeyError from the class lookup
    | NetlistParse(token: string)                      // parse_part: token matches no grammar
    | NoValidDraw                                      // the supplied random draws ran out

  /** InvalidArgumentError derives from ValueError; so do the other ValueErrors. */
  predicate IsValueError(e: Error)
  {
    e.DuplicateParameter? || e.LengthMismatch? || e.MissingParameter? || e.EmptyCurve? ||
    e.InvalidArgument? || e.MissingKeys? || e.MissingMean? || e.MathDomain?
  }

  datatype Option<T> = None | Some(value: T)

  datatype Result<T> = Ok(value: T) | Err(error: Error)

  datatype Outcome = Pass | Fail(error: Error)

  /** `validate_arg`: fails, naming the valid list, exactly when `arg` is not in it. */
  function ValidateArg(arg: string, valid: seq<string>): (o: Outcome)
    ensures o.Pass? <==> arg in valid
    ensures o.Fail? ==> o.error == InvalidArgument(arg, valid) && IsValueError(o.error)
  {
    if arg in valid then Pass else Fail(InvalidArgument(arg, valid))
  }

  /** The keys of `keys` absent from `present`, in the order of `keys`. */
  function Missing(keys: seq<string>, present: set<string>): seq<string>
  {
    if keys == [] then []
    else Missing(keys[..|keys| - 1], present) +
         (if keys[|keys| - 1] in present then [] else [keys[|keys| - 1]])
  }

  /** A key is reported exactly when it is one of `keys` and absent. */
  lemma {:induction false} MissingExactly(keys: seq<string>, present: set<string>, k: string)
    ensures k in Missing(keys, present) <==> k in keys && k !in present
  {
    if keys != [] {
      var init := keys[..|keys| - 1];
      MissingExactly(init, present, k);
      assert keys == init + [keys[|keys| - 1]];
    }
  }

  /** Nothing is reported exactly when every key is present. */
  lemma MissingEmptyIff(keys: seq<string>, present: set<string>)
    ensures Missing(keys, present) == [] <==> forall k :: k in keys ==> k in present
  {
    if Missing(keys, present) != [] {
      MissingExactly(keys, present, Missing(keys, present)[0]);
    }
    forall k | k in keys && k !in present
      ensures Missing(keys, present) != []
    {
      MissingExactly(keys, present, k);
    }
  }

  /** `f` places each element of `m` at a position of `keys` holding it, in strictly increasing order. */
  predicate OrderedEmbedding(f: seq<int>, m: seq<string>, keys: seq<string>)
  {
    && |f| == |m|
    && (forall i :: 0 <= i < |f| ==> 0 <= f[i] < |keys| && keys[f[i]] == m[i])
    && (forall i, i' :: 0 <= i < i' < |f| ==> f[i] < f[i'])
  }

  /** Missing keys keep the order they have in `keys`: the report is a subsequence of it. */
  lemma {:induction false} MissingIsSubsequence(keys: seq<string>, present: set<string>)
    ensures |Missing(keys, present)| <= |keys|
    ensures exists f :: OrderedEmbedding(f, Missing(keys, present), keys)
  {
    if keys == [] {
      assert OrderedEmbedding([], Missing(keys, present), keys);
    } else {
      var init, last := keys[..|keys| - 1], keys[|keys| - 1];
      MissingIsSubsequence(init, present);
      var m0 := Missing(init, present);
      var f0 :| OrderedEmbedding(f0, m0, init);
      if last in present {
        assert OrderedEmbedding(f0, Missing(keys, present), keys);
      } else {
        var f := f0 + [|keys| - 1];
        assert Missing(keys, present) == m0 + [last];
        assert forall i :: 0 <= i < |f0| ==> f[i] == f0[i] < |init|;
        assert OrderedEmbedding(f, Missing(keys, present), keys);
      }
    }
  }

  /** Extra keys in the keyword map never change what is reported. */
  lemma {:induction false} MissingIgnoresExtra(keys: seq<string>, present: set<string>, extra: set<string>)
    requires forall k :: k in keys ==> k !in extra
    ensures Missing(keys, present + extra) == Missing(keys, present)
  {
    if keys != [] {
      MissingIgnoresExtra(keys[..|keys| - 1], present, extra);
    }
  }

  /**
   * `verify_kwargs`: walks `keys` in order collecting those absent from
   * `kwargs`, and fails with the collected list when it is non-empty.
   */
  method VerifyKwargs<V>(kwargs: map<string, V>, keys: seq<string>) returns (o: Outcome)
    ensures o.Pass? <==> forall k :: k in keys ==> k in kwargs
    ensures o.Fail? ==> o == Fail(MissingKeys(Missing(keys, kwargs.Keys)))
  {
    var missing: seq<string> := [];
    var i := 0;
    while i < |keys|
      invariant 0 <= i <= |keys|
      invariant missing == Missing(keys[..i], kwargs.Keys)
    {
      assert keys[..i + 1][..i] == keys[..i];
      if keys[i] !in kwargs {
        missing := missing + [keys[i]];
      }
      i := i + 1;
    }
    assert keys[..i] == keys;
    MissingEmptyIff(keys, kwargs.Keys);
    if |missing| > 0 {
      o := Fail(MissingKeys(missing));
    } else {
      o := Pass;
    }
  }
}
