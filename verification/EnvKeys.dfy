/** Environment variable names as configuration keys (pkg/core/config/koanf.go, transformEnvKey). */
module EnvKeys {

  /** strings.ToLower on ASCII. */
  function Lower(s: string): (r: string)
    ensures |r| == |s|
  {
    seq(|s|, i requires 0 <= i < |s| => LowerChar(s[i]))
  }

  function LowerChar(c: char): char
  {
    if 'A' <= c <= 'Z' then (c as int + 32) as char else c
  }

  /** strings.ReplaceAll for a non-empty `old`: left to right, without overlaps. */
  function ReplaceAll(s: string, old_: string, new_: string): string
    requires old_ != ""
  {
    if |s| < |old_| then s
    else if s[..|old_|] == old_ then new_ + ReplaceAll(s[|old_|..], old_, new_)
    else [s[0]] + ReplaceAll(s[1..], old_, new_)
  }

  /** The three passes, with NUL as placeholder. */
  function TransformEnvKey(key: string): string
  {
    var lowered := Lower(key);
    var marked := ReplaceAll(lowered, "__", "\0");
    var dashed := ReplaceAll(marked, "_", "-");
    ReplaceAll(dashed, "\0", ".")
  }

  /** The documented convention, read off the name in one scan: "__" is a level delimiter, "_" a word separator. */
  function Convention(s: string): string
  {
    if s == "" then ""
    else if |s| >= 2 && s[0] == '_' && s[1] == '_' then "." + Convention(s[2..])
    else if s[0] == '_' then "-" + Convention(s[1..])
    else [s[0]] + Convention(s[1..])
  }

  /** The way back. */
  function Back(key: string): string
  {
    if key == "" then "" else BackChar(key[0]) + Back(key[1..])
  }

  function BackChar(c: char): string
  {
    if c == '.' then "__" else if c == '-' then "_" else [c]
  }

  predicate Reserved(c: char) { c == '.' || c == '-' || c == '\0' }

  predicate Clean(s: string) { forall c :: c in s ==> !Reserved(c) }

  // ---------- The passes ----------

  function Swap(s: string, a: char, b: char): string
  {
    seq(|s|, i requires 0 <= i < |s| => if s[i] == a then b else s[i])
  }

  lemma {:induction false} ReplaceChar(s: string, a: char, b: char)
    ensures ReplaceAll(s, [a], [b]) == Swap(s, a, b)
  {
    if s != "" {
      ReplaceChar(s[1..], a, b);
      assert s[..1] == [s[0]];
      assert Swap(s, a, b) == [if s[0] == a then b else s[0]] + Swap(s[1..], a, b);
    }
  }

  function Finish(s: string): string { Swap(Swap(s, '_', '-'), '\0', '.') }

  lemma FinishAppend(a: string, b: string)
    ensures Finish(a + b) == Finish(a) + Finish(b)
  {
  }

  lemma PassesAreFinish(s: string)
    ensures TransformEnvKey(s) == Finish(ReplaceAll(Lower(s), "__", "\0"))
  {
    var marked := ReplaceAll(Lower(s), "__", "\0");
    ReplaceChar(marked, '_', '-');
    ReplaceChar(Swap(marked, '_', '-'), '\0', '.');
  }

  lemma {:induction false} MarkedIsConvention(s: string)
    requires '\0' !in s
    ensures Finish(ReplaceAll(s, "__", "\0")) == Convention(s)
  {
    if |s| >= 2 && s[0] == '_' && s[1] == '_' {
      assert s[..2] == "__";
      MarkedIsConvention(s[2..]);
      FinishAppend("\0", ReplaceAll(s[2..], "__", "\0"));
    } else if s != "" {
      assert |s| >= 2 ==> s[..2][0] == s[0] && s[..2][1] == s[1];
      MarkedIsConvention(s[1..]);
      FinishAppend([s[0]], ReplaceAll(s[1..], "__", "\0"));
      if |s| == 1 {
        assert s[1..] == "" && s == [s[0]];
      }
    }
  }

  /** The three replacements give exactly the documented convention, for every name an environment can hold. */
  lemma TransformIsConvention(key: string)
    requires '\0' !in key
    ensures TransformEnvKey(key) == Convention(Lower(key))
  {
    PassesAreFinish(key);
    LowerKeepsReserved(key);
    MarkedIsConvention(Lower(key));
  }

  lemma LowerKeepsReserved(s: string)
    ensures Clean(Lower(s)) <==> Clean(s)
    ensures '\0' in Lower(s) <==> '\0' in s
  {
    forall i | 0 <= i < |s| ensures Reserved(Lower(s)[i]) <==> Reserved(s[i]) {
    }
    assert forall i :: 0 <= i < |s| ==> Lower(s)[i] in Lower(s) && s[i] in s;
    if '\0' in s {
      var i :| 0 <= i < |s| && s[i] == '\0';
      assert Lower(s)[i] == '\0';
    }
  }

  // ---------- Letters ----------

  /** An upper-case letter becomes the lower-case one at its place in the alphabet; all else stays. */
  lemma LowerLetters(s: string, i: nat)
    requires i < |s|
    ensures 'A' <= s[i] <= 'Z' ==> 'a' <= Lower(s)[i] <= 'z' && Lower(s)[i] - 'a' == s[i] - 'A'
    ensures !('A' <= s[i] <= 'Z') ==> Lower(s)[i] == s[i]
  {
  }

  lemma {:induction false} ConventionKeeps(s: string, c: char)
    requires c in Convention(s)
    ensures c in s || c == '.' || c == '-'
    ensures c != '_'
  {
    if |s| >= 2 && s[0] == '_' && s[1] == '_' {
      if c != '.' {
        ConventionKeeps(s[2..], c);
      }
    } else if s != "" {
      if c in Convention(s[1..]) {
        ConventionKeeps(s[1..], c);
      }
    }
  }

  /** A key has no upper-case letter and no underscore. */
  lemma KeyIsLower(key: string, c: char)
    requires '\0' !in key && c in TransformEnvKey(key)
    ensures !('A' <= c <= 'Z') && c != '_'
  {
    TransformIsConvention(key);
    ConventionKeeps(Lower(key), c);
  }

  lemma LowerAppend(a: string, b: string)
    ensures Lower(a + b) == Lower(a) + Lower(b)
  {
  }

  lemma Associative(a: string, b: string, c: string)
    ensures a + (b + c) == a + b + c
  {
  }

  lemma {:induction false} ConventionAppend(a: string, b: string)
    requires a == "" || a[|a| - 1] != '_'
    ensures Convention(a + b) == Convention(a) + Convention(b)
  {
    if a == "" {
      assert a + b == b;
    } else if |a| >= 2 && a[0] == '_' && a[1] == '_' {
      assert (a + b)[2..] == a[2..] + b;
      ConventionAppend(a[2..], b);
      Associative(".", Convention(a[2..]), Convention(b));
    } else {
      assert (a + b)[1..] == a[1..] + b;
      ConventionAppend(a[1..], b);
      assert (a + b)[0] == a[0] && (|a| >= 2 ==> (a + b)[1] == a[1]);
      Associative(if a[0] == '_' then "-" else [a[0]], Convention(a[1..]), Convention(b));
    }
  }

  /** A double underscore between two parts becomes a dot, a single one a dash, and letters become lower case. */
  lemma LevelsAndWords(a: string, b: string)
    requires '\0' !in a && '\0' !in b
    requires a != "" && a[|a| - 1] != '_' && b != "" && b[0] != '_'
    ensures TransformEnvKey(a + "__" + b) == TransformEnvKey(a) + "." + TransformEnvKey(b)
    ensures TransformEnvKey(a + "_" + b) == TransformEnvKey(a) + "-" + TransformEnvKey(b)
    ensures '_' !in a ==> TransformEnvKey(a) == Lower(a)
  {
    TransformIsConvention(a);
    TransformIsConvention(b);
    Joined(a, "__", b);
    Joined(a, "_", b);
    var rest := Lower(b);
    assert ("__" + rest)[2..] == rest && ("_" + rest)[1..] == rest;
    if '_' !in a {
      ConventionOfWord(Lower(a));
    }
  }

  lemma Joined(a: string, sep: string, b: string)
    requires '\0' !in a && '\0' !in b && (sep == "_" || sep == "__") && a != "" && a[|a| - 1] != '_'
    ensures TransformEnvKey(a + sep + b) == Convention(Lower(a)) + Convention(sep + Lower(b))
  {
    TransformIsConvention(a + sep + b);
    LowerAppend(a + sep, b);
    LowerAppend(a, sep);
    assert Lower(sep) == sep;
    assert Lower(a) + sep + Lower(b) == Lower(a) + (sep + Lower(b));
    ConventionAppend(Lower(a), sep + Lower(b));
  }

  lemma {:induction false} ConventionOfWord(s: string)
    requires forall i :: 0 <= i < |s| ==> s[i] != '_'
    ensures Convention(s) == s
  {
    if s != "" {
      ConventionOfWord(s[1..]);
      assert s == [s[0]] + s[1..];
    }
  }

  // ---------- Round trip ----------

  lemma {:induction false} BackOfConvention(s: string)
    requires Clean(s)
    ensures Back(Convention(s)) == s
  {
    if s != "" {
      if |s| >= 2 && s[0] == '_' && s[1] == '_' {
        BackOfConvention(s[2..]);
        assert ("." + Convention(s[2..]))[1..] == Convention(s[2..]);
        assert s == "__" + s[2..];
      } else {
        BackOfConvention(s[1..]);
        assert s[0] in s;
        var c := if s[0] == '_' then '-' else s[0];
        assert ([c] + Convention(s[1..]))[1..] == Convention(s[1..]);
        assert s == [s[0]] + s[1..];
      }
    }
  }

  lemma {:induction false} BackIsClean(key: string)
    requires '\0' !in key
    ensures Clean(Back(key))
  {
    if key != "" {
      BackIsClean(key[1..]);
      assert key[0] in key;
    }
  }

  lemma NoNulLeft(key: string)
    ensures '\0' !in TransformEnvKey(key)
  {
    PassesAreFinish(key);
  }

  /** The lowercased name can be read back from the configuration key if and only if the name itself contains
      neither '.', '-' nor NUL. */
  lemma RoundTripExact(key: string)
    ensures Back(TransformEnvKey(key)) == Lower(key) <==> Clean(key)
  {
    LowerKeepsReserved(key);
    if Clean(key) {
      TransformIsConvention(key);
      BackOfConvention(Lower(key));
    } else {
      NoNulLeft(key);
      BackIsClean(TransformEnvKey(key));
    }
  }

  /** So distinct names, up to case, never end up as the same key. */
  lemma NoCollisions(a: string, b: string)
    requires Clean(a) && Clean(b) && TransformEnvKey(a) == TransformEnvKey(b)
    ensures Lower(a) == Lower(b)
  {
    RoundTripExact(a);
    RoundTripExact(b);
  }

  /** Outside the condition they do: a dot and the level delimiter give the same key. */
  lemma CollisionOutside(suffix: string)
    requires '\0' !in suffix
    ensures TransformEnvKey("." + suffix) == TransformEnvKey("__" + suffix)
    ensures Lower("." + suffix) != Lower("__" + suffix)
  {
    TransformIsConvention("." + suffix);
    TransformIsConvention("__" + suffix);
    LowerAppend(".", suffix);
    LowerAppend("__", suffix);
    var rest := Lower(suffix);
    assert Lower(".") == "." && Lower("__") == "__";
    assert ("." + rest)[1..] == rest && ("__" + rest)[2..] == rest;
  }
}
