/**
  The order Python's `<` puts on `str` values: lexicographic by code point,
  a proper prefix before any longer string. pandas uses it when it sorts or
  groups by the actor column.
*/
module TextOrder {

  predicate StrLt(s: string, t: string)
  {
    if |t| == 0 then false
    else if |s| == 0 then true
    else if s[0] != t[0] then s[0] < t[0]
    else StrLt(s[1..], t[1..])
  }

  lemma {:induction false} StrLtIrreflexive(s: string)
    ensures !StrLt(s, s)
  {
    if |s| > 0 {
      StrLtIrreflexive(s[1..]);
    }
  }

  lemma {:induction false} StrLtTransitive(s: string, t: string, u: string)
    requires StrLt(s, t) && StrLt(t, u)
    ensures StrLt(s, u)
  {
    if |s| > 0 && s[0] == t[0] && t[0] == u[0] {
      StrLtTransitive(s[1..], t[1..], u[1..]);
    }
  }

  lemma {:induction false} StrLtTotal(s: string, t: string)
    ensures s == t || StrLt(s, t) || StrLt(t, s)
  {
    if |s| > 0 && |t| > 0 && s[0] == t[0] {
      StrLtTotal(s[1..], t[1..]);
      if s[1..] == t[1..] {
        assert s == [s[0]] + s[1..] && t == [t[0]] + t[1..];
      }
    }
  }
}
