/** What the five test runners share: the in-place shuffle of a trial list
    and the results payload each of them posts when a run completes. */
module Common {
  import opened Js

  /** `array.sort(() => Math.random() - 0.5)` reorders the array in place
      into some permutation. The random choices are the input `picks`: step
      `k` swaps the element at `n - 1 - k` with the one at
      `picks[k] % (n - k)`, a missing pick meaning "no swap". */
  method ShuffleInPlace<T>(a: array<T>, picks: seq<nat>)
    modifies a
    ensures multiset(a[..]) == multiset(old(a[..]))
  {
    var i := a.Length;
    while i > 1
      invariant 0 <= i <= a.Length
      invariant multiset(a[..]) == multiset(old(a[..]))
    {
      i := i - 1;
      var k := a.Length - 1 - i;
      var j := if k < |picks| then picks[k] % (i + 1) else i;
      a[i], a[j] := a[j], a[i];
    }
  }

  /** `shuffleArray([...trials])`: a fresh copy is shuffled, so the trial
      table itself is never reordered. */
  method ShuffledCopy<T(0)>(s: seq<T>, picks: seq<nat>) returns (r: seq<T>)
    ensures |r| == |s|
    ensures multiset(r) == multiset(s)
  {
    var a := new T[|s|](i requires 0 <= i < |s| => s[i]);
    assert a[..] == s;
    ShuffleInPlace(a, picks);
    r := a[..];
  }

  /** The body of `POST /api/results` sent by a test runner. */
  datatype Submission<R> = Submission(name: string, responses: seq<R>, test: string, completionDate: string)

  /** A completed run is posted only when the user name taken from the
      token is non-empty (`if (name) axios.post(...)`). */
  function Post<R>(name: string, responses: seq<R>, test: string, completionDate: string): (p: Option<Submission<R>>)
    ensures p.Some? <==> name != ""
    ensures p.Some? ==> p.value.name == name && p.value.responses == responses
                        && p.value.test == test && p.value.completionDate == completionDate
  {
    if name != "" then Some(Submission(name, responses, test, completionDate)) else None
  }
}
