/** The acceptance rule of the console prompt: answers are read one after
    another until one is a whole number within [minVal, maxVal]. Each
    rejected answer produces a message; the accepted one ends the prompt.
    The console itself is replaced by a finite sequence of answers. */
module Validation {

  datatype Option<T> = None | Some(value: T)

  /** One answer after conversion with `int(...)`: either the conversion
      raised ValueError, or it produced an integer. */
  datatype Attempt = NotANumber | Number(value: int)

  /** The message printed for a rejected answer. */
  datatype Complaint =
    | InvalidNumber                          // the answer is not a whole number
    | OutOfRange(minVal: int, maxVal: int)   // the answer lies outside the range it names

  /** The outcome of prompting over a finite run of answers: the accepted
      value, if any, and the messages printed before it. */
  datatype Session = Session(accepted: Option<int>, complaints: seq<Complaint>)

  /** An answer is accepted when it is a number within the inclusive range. */
  predicate Acceptable(a: Attempt, minVal: int, maxVal: int)
  {
    a.Number? && minVal <= a.value <= maxVal
  }

  /** The message a rejected answer draws. */
  function ComplaintFor(a: Attempt, minVal: int, maxVal: int): Complaint
  {
    if a.NotANumber? then InvalidNumber else OutOfRange(minVal, maxVal)
  }

  /** get_validated_input over the answers given: rejected answers are
      skipped with their message, and the first acceptable one is returned.
      If none is acceptable, every answer has drawn a message and nothing is
      accepted (the real prompt would go on waiting). */
  function GetValidatedInput(attempts: seq<Attempt>, minVal: int, maxVal: int): (s: Session)
    ensures s.accepted.Some? ==> minVal <= s.accepted.value <= maxVal
    ensures |s.complaints| <= |attempts|
  {
    if attempts == [] then Session(None, [])
    else
      match attempts[0]
      case NotANumber =>
        var rest := GetValidatedInput(attempts[1..], minVal, maxVal);
        Session(rest.accepted, [InvalidNumber] + rest.complaints)
      case Number(v) =>
        if minVal <= v <= maxVal then Session(Some(v), [])
        else
          var rest := GetValidatedInput(attempts[1..], minVal, maxVal);
          Session(rest.accepted, [OutOfRange(minVal, maxVal)] + rest.complaints)
  }

  /** What the prompt does with a run of answers: something is accepted
      exactly when some answer is acceptable; the accepted value is the first
      acceptable answer, and each answer before it was rejected with the
      message that fits it; when nothing is accepted, every answer drew its
      message. */
  lemma {:induction false} AcceptsFirstAcceptable(attempts: seq<Attempt>, minVal: int, maxVal: int)
    ensures var s := GetValidatedInput(attempts, minVal, maxVal);
            && (s.accepted.Some? <==> exists i :: 0 <= i < |attempts| && Acceptable(attempts[i], minVal, maxVal))
            && (s.accepted.Some? ==> |s.complaints| < |attempts| && attempts[|s.complaints|] == Number(s.accepted.value))
            && (s.accepted.None? ==> |s.complaints| == |attempts|)
            && (forall j :: 0 <= j < |s.complaints| ==>
                  !Acceptable(attempts[j], minVal, maxVal) && s.complaints[j] == ComplaintFor(attempts[j], minVal, maxVal))
  {
    if attempts != [] && !Acceptable(attempts[0], minVal, maxVal) {
      AcceptsFirstAcceptable(attempts[1..], minVal, maxVal);
      var s := GetValidatedInput(attempts, minVal, maxVal);
      var rest := GetValidatedInput(attempts[1..], minVal, maxVal);
      assert s.complaints == [ComplaintFor(attempts[0], minVal, maxVal)] + rest.complaints;
      forall j | 0 <= j < |s.complaints|
        ensures !Acceptable(attempts[j], minVal, maxVal) && s.complaints[j] == ComplaintFor(attempts[j], minVal, maxVal)
      {
        if j > 0 {
          assert attempts[j] == attempts[1..][j - 1];
        }
      }
      if s.accepted.None? {
        forall i | 0 <= i < |attempts| ensures !Acceptable(attempts[i], minVal, maxVal) {
          if i > 0 {
            assert attempts[i] == attempts[1..][i - 1];
          }
        }
      } else {
        var i := |rest.complaints|;
        assert attempts[i + 1] == attempts[1..][i];
      }
    }
  }

  /** Once an answer is accepted, the prompt stops reading: whatever answers
      would have come after do not change the outcome. */
  lemma {:induction false} StopsAtAcceptance(attempts: seq<Attempt>, later: seq<Attempt>, minVal: int, maxVal: int)
    requires GetValidatedInput(attempts, minVal, maxVal).accepted.Some?
    ensures GetValidatedInput(attempts + later, minVal, maxVal) == GetValidatedInput(attempts, minVal, maxVal)
  {
    assert attempts != [];
    assert (attempts + later)[0] == attempts[0];
    assert (attempts + later)[1..] == attempts[1..] + later;
    if !Acceptable(attempts[0], minVal, maxVal) {
      StopsAtAcceptance(attempts[1..], later, minVal, maxVal);
    }
  }

  /** One step of the prompt: a rejected first answer draws its message and
      the prompt carries on with the remaining answers. */
  lemma RejectedStep(attempts: seq<Attempt>, minVal: int, maxVal: int)
    requires attempts != [] && !Acceptable(attempts[0], minVal, maxVal)
    ensures GetValidatedInput(attempts, minVal, maxVal)
         == var rest := GetValidatedInput(attempts[1..], minVal, maxVal);
            Session(rest.accepted, [ComplaintFor(attempts[0], minVal, maxVal)] + rest.complaints)
  {
  }

  /** With no acceptable answer in a run, the complaints of a longer run
      begin with the complaints of that run. */
  lemma {:induction false} RejectedRunCarriesOver(attempts: seq<Attempt>, later: seq<Attempt>, minVal: int, maxVal: int)
    requires GetValidatedInput(attempts, minVal, maxVal).accepted.None?
    ensures GetValidatedInput(attempts + later, minVal, maxVal)
         == var s := GetValidatedInput(later, minVal, maxVal);
            Session(s.accepted, GetValidatedInput(attempts, minVal, maxVal).complaints + s.complaints)
  {
    if attempts == [] {
      assert attempts + later == later;
    } else {
      var whole := attempts + later;
      assert whole[0] == attempts[0] && whole[1..] == attempts[1..] + later;
      assert !Acceptable(attempts[0], minVal, maxVal);
      RejectedStep(attempts, minVal, maxVal);
      RejectedStep(whole, minVal, maxVal);
      RejectedRunCarriesOver(attempts[1..], later, minVal, maxVal);
      var c := ComplaintFor(attempts[0], minVal, maxVal);
      var head := GetValidatedInput(attempts[1..], minVal, maxVal).complaints;
      var tail := GetValidatedInput(later, minVal, maxVal).complaints;
      assert [c] + (head + tail) == ([c] + head) + tail;
    }
  }

  /** A non-numeric answer followed by a valid one draws exactly one
      "invalid input" message; an out-of-range one followed by a valid one
      draws exactly one "out of range" message. */
  lemma RetryExamples()
    ensures GetValidatedInput([NotANumber, Number(5)], 0, 10) == Session(Some(5), [InvalidNumber])
    ensures GetValidatedInput([Number(11), Number(5)], 0, 10) == Session(Some(5), [OutOfRange(0, 10)])
    ensures GetValidatedInput([Number(-1), NotANumber], 0, 10) == Session(None, [OutOfRange(0, 10), InvalidNumber])
  {
    assert [NotANumber, Number(5)][1..] == [Number(5)];
    assert [Number(11), Number(5)][1..] == [Number(5)];
    assert [Number(-1), NotANumber][1..] == [NotANumber];
    assert [NotANumber][1..] == [];
  }
}
