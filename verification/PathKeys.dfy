/** The string keys under which the artifact scan indexes its directory nodes. */
module PathKeys {
  predicate Part(s: string) {
    s != "" && '/' !in s
  }

  predicate Parts(k: seq<string>) {
    forall i :: 0 <= i < |k| ==> Part(k[i])
  }

  /** `"/".join(prefix)`. */
  function Join(k: seq<string>): string
    decreases |k|, 0
  {
    if k == [] then "" else k[0] + Tail(k[1..])
  }

  function Tail(k: seq<string>): string
    decreases |k|, 1
  {
    if k == [] then "" else "/" + Join(k)
  }

  /** The text before the first slash. */
  function Head(s: string): string {
    if s == "" || s[0] == '/' then "" else [s[0]] + Head(s[1..])
  }

  lemma {:induction false} HeadOf(a: string, x: string)
    requires '/' !in a && (x == "" || x[0] == '/')
    ensures Head(a + x) == a
  {
    if a == "" {
      assert a + x == x;
    } else {
      assert (a + x)[1..] == a[1..] + x;
      HeadOf(a[1..], x);
    }
  }

  lemma JoinNonEmpty(k: seq<string>)
    requires Parts(k)
    ensures Join(k) == "" <==> k == []
  {
  }

  /** Paths made of file names have different keys, so one key stands for one directory. */
  lemma {:induction false} JoinIsInjective(k: seq<string>, l: seq<string>)
    requires Parts(k) && Parts(l) && Join(k) == Join(l)
    ensures k == l
  {
    JoinNonEmpty(k);
    JoinNonEmpty(l);
    if k != [] {
      HeadOf(k[0], Tail(k[1..]));
      HeadOf(l[0], Tail(l[1..]));
      assert Tail(k[1..]) == Join(k)[|k[0]|..] == Join(l)[|l[0]|..] == Tail(l[1..]);
      JoinNonEmpty(k[1..]);
      JoinNonEmpty(l[1..]);
      assert k[1..] == [] <==> l[1..] == [];
      assert Join(k[1..]) == Join(l[1..]) by {
        if k[1..] != [] {
          assert Join(k[1..]) == Tail(k[1..])[1..];
        }
      }
      JoinIsInjective(k[1..], l[1..]);
      assert k == [k[0]] + k[1..] && l == [l[0]] + l[1..];
    }
  }
}
