/** Values shared by every part of the chorus model: optional and failing
    results, chat messages, and the dynamically typed values of a plan. */
module Common {

  datatype Option<+T> = None | Some(value: T)

  /** The outcome of a step that may raise; `error` names the Python exception
      or the assertion message that stops the script. */
  datatype Result<+T> = Success(value: T) | Failure(error: string) {
    predicate IsFailure() { Failure? }

    function PropagateFailure<U>(): Result<U>
      requires Failure?
    {
      Failure(error)
    }

    function Extract(): T
      requires Success?
    {
      value
    }
  }

  /** A check that either passes or stops with a message (Python's `assert`). */
  datatype Verdict = Pass | Reject(error: string) {
    predicate IsFailure() { Reject? }

    function PropagateFailure<U>(): Result<U>
      requires Reject?
    {
      Failure(error)
    }
  }

  function Need(condition: bool, error: string): (v: Verdict)
    ensures v.Pass? <==> condition
  {
    if condition then Pass else Reject(error)
  }

  /** One chat message: a role ("system", "user" or "assistant") and its text. */
  datatype Message = Message(role: string, content: string)

  /** A value stored under a key of the plan dictionary. Command-line values are
      text, or numbers for the keys that are converted; plan files carry what
      their JSON decodes to, where Other stands for booleans, objects and lists
      that are not message lists. */
  datatype Value =
    | Text(text: string)
    | Int(ival: int)
    | Num(rval: real)
    | Messages(messages: seq<Message>)
    | Null
    | Other

  predicate StartsWith(s: string, prefix: string) {
    |prefix| <= |s| && s[..|prefix|] == prefix
  }

  predicate EndsWith<T(==)>(s: seq<T>, suffix: seq<T>) {
    |suffix| <= |s| && s[|s| - |suffix|..] == suffix
  }

  /** Python's slice `s[n:]`, which is empty when `n` is past the end. */
  function Drop<T>(s: seq<T>, n: nat): (r: seq<T>)
    ensures n <= |s| ==> s == s[..n] + r
    ensures n >= |s| ==> r == []
  {
    if n <= |s| then s[n..] else []
  }

  /** Python's slice `s[k:]` for any integer k; a negative k counts from the end. */
  function SliceFrom<T>(s: seq<T>, k: int): (r: seq<T>)
    ensures k >= 0 ==> r == Drop(s, k)
    ensures 0 <= k <= |s| ==> s == s[..k] + r
  {
    if k >= 0 then Drop(s, k) else if |s| + k >= 0 then s[|s| + k..] else s
  }

  /** A prefix one element longer is the prefix followed by that element. */
  lemma TakeOneMore<T>(s: seq<T>, i: nat)
    requires i < |s|
    ensures s[..i + 1] == s[..i] + [s[i]]
  {
  }

  lemma AppendAssoc<T>(a: seq<T>, b: seq<T>, c: seq<T>)
    ensures (a + b) + c == a + (b + c)
  {
  }
}
