/** Dedup keys: what a condition IS, as three slash-separated segments.

    Lower-casing and trimming come from the standard library of the source's
    language and are parameters here: nothing below depends on what they do. */
module DedupKeys {
  import opened Base

  datatype Cleaner = Cleaner(lower: string -> string, trim: string -> string) {
    /** One segment: trimmed lower case, with slashes made harmless and an
        absent part named. */
    function Clean(s: string): (c: string)
      ensures c != "" && '/' !in c
    {
      var plain := Unslash(trim(lower(s)));
      if plain == "" then "unknown" else plain
    }

    function Key(source: string, entity: string, condition: string): string {
      Clean(source) + "/" + Clean(entity) + "/" + Clean(condition)
    }
  }

  function Unslash(s: string): (t: string)
    ensures |t| == |s| && '/' !in t
    ensures forall i :: 0 <= i < |s| ==> t[i] == if s[i] == '/' then '_' else s[i]
  {
    if s == "" then "" else [if s[0] == '/' then '_' else s[0]] + Unslash(s[1..])
  }

  function Split(s: string): (parts: seq<string>)
    ensures parts != []
  {
    if s == "" then [""]
    else
      var rest := Split(s[1..]);
      if s[0] == '/' then [""] + rest else [[s[0]] + rest[0]] + rest[1..]
  }

  function Entity(key: string): string {
    var parts := Split(key);
    if |parts| != 3 then "" else parts[1]
  }

  function Condition(key: string): string {
    var parts := Split(key);
    if |parts| != 3 then "" else parts[2]
  }

  lemma {:induction false} SplitWhole(s: string)
    requires '/' !in s
    ensures Split(s) == [s]
  {
    if s != "" {
      SplitWhole(s[1..]);
      assert s[0] != '/' && s == [s[0]] + s[1..];
    }
  }

  lemma {:induction false} SplitFirst(s: string, rest: string)
    requires '/' !in s
    ensures Split(s + "/" + rest) == [s] + Split(rest)
  {
    if s == "" {
      assert s + "/" + rest == "/" + rest;
    } else {
      SplitFirst(s[1..], rest);
      var whole := s + "/" + rest;
      assert whole[0] == s[0] != '/' && whole[1..] == s[1..] + "/" + rest;
      assert [s[0]] + s[1..] == s;
    }
  }

  /** Whatever the three parts hold, slashes and blanks included, the key has
      exactly three segments and each is read back. */
  lemma KeyReadsBack(c: Cleaner, source: string, entity: string, condition: string)
    ensures var key := c.Key(source, entity, condition);
            && Split(key) == [c.Clean(source), c.Clean(entity), c.Clean(condition)]
            && Entity(key) == c.Clean(entity)
            && Condition(key) == c.Clean(condition)
  {
    var a, b, d := c.Clean(source), c.Clean(entity), c.Clean(condition);
    SplitWhole(d);
    SplitFirst(b, d);
    SplitFirst(a, b + "/" + d);
    assert c.Key(source, entity, condition) == a + "/" + (b + "/" + d);
  }

  /** A part that says something is kept as it is but for its slashes; one that says
      nothing is called unknown. */
  lemma CleanExactly(c: Cleaner, s: string)
    ensures var plain, out := c.trim(c.lower(s)), c.Clean(s);
            if plain == "" then out == "unknown"
            else |out| == |plain| && forall i :: 0 <= i < |out| ==> out[i] == if plain[i] == '/' then '_' else plain[i]
  {
  }

  /** So conditions told apart by plain parts, without slashes or blanks to lose, are
      told apart by their keys. */
  lemma PlainPartsTellApart(c: Cleaner, s1: string, e1: string, k1: string, s2: string, e2: string, k2: string)
    requires forall p :: p in {s1, e1, k1, s2, e2, k2} ==> c.trim(c.lower(p)) == p && p != "" && '/' !in p
    ensures c.Key(s1, e1, k1) == c.Key(s2, e2, k2) <==> s1 == s2 && e1 == e2 && k1 == k2
  {
    forall p | p in {s1, e1, k1, s2, e2, k2}
      ensures c.Clean(p) == p
    {
      CleanExactly(c, p);
      assert forall i :: 0 <= i < |p| ==> p[i] in p;
      assert c.Clean(p) == p;
    }
    SameKeyMeansSameCondition(c, s1, e1, k1, s2, e2, k2);
  }

  /** Two conditions share a key exactly when they clean to the same three
      parts, so distinct conditions never merge through the separator. */
  lemma SameKeyMeansSameCondition(c: Cleaner, s1: string, e1: string, k1: string,
                                  s2: string, e2: string, k2: string)
    ensures c.Key(s1, e1, k1) == c.Key(s2, e2, k2) <==>
              c.Clean(s1) == c.Clean(s2) && c.Clean(e1) == c.Clean(e2) && c.Clean(k1) == c.Clean(k2)
  {
    KeyReadsBack(c, s1, e1, k1);
    KeyReadsBack(c, s2, e2, k2);
    assert c.Key(s1, e1, k1) == c.Key(s2, e2, k2) ==>
        Split(c.Key(s1, e1, k1)) == Split(c.Key(s2, e2, k2));
  }
}
