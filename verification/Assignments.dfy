/** Strings of the form name=value, split at the first equals sign. */
module Assignments {
  import opened Wrappers

  predicate NoEquals(s: string) {
    forall i | 0 <= i < |s| :: s[i] != '='
  }

  function FirstEquals(s: string): (n: nat)
    ensures n <= |s| && NoEquals(s[..n])
    ensures n < |s| ==> s[n] == '='
  {
    if s == "" || s[0] == '=' then 0 else
      var n := 1 + FirstEquals(s[1..]);
      assert s[..n] == [s[0]] + s[1..][..n - 1];
      n
  }

  lemma {:induction false} FirstEqualsAt(name: string, value: string)
    requires NoEquals(name)
    ensures FirstEquals(name + "=" + value) == |name|
  {
    var text := name + "=" + value;
    if name == "" {
      assert text[0] == '=';
    } else {
      FirstEqualsAt(name[1..], value);
      assert text[0] == name[0] && text[1..] == name[1..] + "=" + value;
    }
  }

  function Assignment(name: string, value: string): string {
    name + "=" + value
  }

  function Split(text: string): (r: Option<(string, string)>)
    ensures r.Some? ==> NoEquals(r.value.0) && text == Assignment(r.value.0, r.value.1)
  {
    var n := FirstEquals(text);
    if n == |text| then None else
      assert text == text[..n] + "=" + text[n + 1..];
      Some((text[..n], text[n + 1..]))
  }

  /** Splitting undoes writing exactly for names without an equals sign. */
  lemma SplitAssignment(name: string, value: string)
    ensures Split(Assignment(name, value)) == Some((name, value)) <==> NoEquals(name)
  {
    if NoEquals(name) {
      FirstEqualsAt(name, value);
      var text := Assignment(name, value);
      assert text[..|name|] == name && text[|name| + 1..] == value;
    }
  }
}
