/**
 * The CSS custom property that holds a colour: `--` and the camelCase property
 * name turned into kebab-case, `key.replace(/([A-Z])/g, '-$1').toLowerCase()`.
 * The result has the `--*` form of a custom property name (section 2 of CSS
 * Custom Properties for Cascading Variables Module Level 1).
 */
module CssNames {
  import opened Palette

  predicate IsUpper(c: char) {
    'A' <= c <= 'Z'
  }

  predicate NoUpper(s: string) {
    forall i :: 0 <= i < |s| ==> !IsUpper(s[i])
  }

  function ToLower(c: char): char {
    if IsUpper(c) then (c as int + 32) as char else c
  }

  function ToUpper(c: char): char {
    if 'a' <= c <= 'z' then (c as int - 32) as char else c
  }

  /** `s.replace(/([A-Z])/g, '-$1')`: a dash before every upper-case letter. */
  function DashBeforeUpper(s: string): (r: string)
    ensures |r| >= |s|
  {
    if s == [] then [] else (if IsUpper(s[0]) then ['-', s[0]] else [s[0]]) + DashBeforeUpper(s[1..])
  }

  /** Every capital of the result has the dash inserted before it; a name without capitals is kept. */
  lemma {:induction false} DashMarksCapitals(s: string)
    ensures forall i :: 0 <= i < |DashBeforeUpper(s)| && IsUpper(DashBeforeUpper(s)[i]) ==>
              0 < i && DashBeforeUpper(s)[i - 1] == '-'
    ensures NoUpper(s) ==> DashBeforeUpper(s) == s
  {
    if s != [] {
      DashMarksCapitals(s[1..]);
      var r, rest := DashBeforeUpper(s), DashBeforeUpper(s[1..]);
      var k := if IsUpper(s[0]) then 2 else 1;
      assert r == r[..k] + rest;
      forall i | 0 <= i < |r| && IsUpper(r[i]) ensures 0 < i && r[i - 1] == '-' {
        if i >= k {
          assert r[i] == rest[i - k];
          if i == k {
            assert false;
          }
          assert r[i - 1] == rest[i - 1 - k];
        }
      }
    }
  }

  /** `s.toLowerCase()` on the letters A to Z. */
  function LowerCase(s: string): (r: string)
    ensures |r| == |s| && NoUpper(r)
    ensures forall i :: 0 <= i < |s| ==> r[i] == ToLower(s[i])
  {
    if s == [] then [] else [ToLower(s[0])] + LowerCase(s[1..])
  }

  /** The custom property for a colour property name. */
  function CssVarName(key: string): string {
    "--" + LowerCase(DashBeforeUpper(key))
  }

  lemma {:induction false} LowerCaseConcat(a: string, b: string)
    ensures LowerCase(a + b) == LowerCase(a) + LowerCase(b)
  {
    if a != [] {
      assert (a + b)[1..] == a[1..] + b;
      LowerCaseConcat(a[1..], b);
    } else {
      assert a + b == b;
    }
  }

  lemma {:induction false} LowerCaseNoUpper(s: string)
    requires NoUpper(s)
    ensures LowerCase(s) == s
  {
    if s != [] {
      LowerCaseNoUpper(s[1..]);
    }
  }

  lemma {:induction false} DashConcat(a: string, b: string)
    ensures DashBeforeUpper(a + b) == DashBeforeUpper(a) + DashBeforeUpper(b)
  {
    if a != [] {
      assert (a + b)[1..] == a[1..] + b;
      DashConcat(a[1..], b);
    } else {
      assert a + b == b;
    }
  }

  /**
   * A camelCase name with one capital letter, such as `background` `C` `olor`,
   * becomes `--background-color`.
   */
  lemma OneHump(head: string, c: char, tail: string)
    requires NoUpper(head) && NoUpper(tail) && IsUpper(c)
    ensures CssVarName(head + [c] + tail) == "--" + head + ['-', ToLower(c)] + tail
  {
    DashOneHump(head, c, tail);
    LowerCaseConcat(head + ['-', c], tail);
    LowerCaseConcat(head, ['-', c]);
    LowerCaseNoUpper(head);
    LowerCaseNoUpper(tail);
    assert LowerCase(['-', c]) == ['-', ToLower(c)];
  }

  lemma DashOneHump(head: string, c: char, tail: string)
    requires NoUpper(head) && NoUpper(tail) && IsUpper(c)
    ensures DashBeforeUpper(head + [c] + tail) == head + ['-', c] + tail
  {
    DashConcat(head + [c], tail);
    DashConcat(head, [c]);
    DashMarksCapitals(head);
    DashMarksCapitals(tail);
    assert DashBeforeUpper([c]) == ['-', c];
  }

  lemma KeyNamesHaveNoDash(k: ColorKey)
    ensures '-' !in KeyName(k)
  {
  }

  /**
   * The eight fields get eight distinct custom properties, each of the `--*`
   * form and without upper-case letters.
   */
  lemma CssNamesOfKeys()
    ensures forall k, j :: CssVarName(KeyName(k)) == CssVarName(KeyName(j)) ==> k == j
    ensures forall k :: |CssVarName(KeyName(k))| > 2 && CssVarName(KeyName(k))[..2] == "--"
    ensures forall k :: NoUpper(CssVarName(KeyName(k))[2..])
  {
    KeyNamesDistinct();
    forall k, j | CssVarName(KeyName(k)) == CssVarName(KeyName(j)) ensures k == j {
      KeyNamesHaveNoDash(k);
      KeyNamesHaveNoDash(j);
      CssVarNameInjective(KeyName(k), KeyName(j));
    }
  }

  /** `-x` back to `X`: undoes the conversion of a name that has no dash of its own. */
  function CamelCase(s: string): string {
    if s == [] then []
    else if s[0] == '-' && |s| > 1 then [ToUpper(s[1])] + CamelCase(s[2..])
    else [s[0]] + CamelCase(s[1..])
  }

  lemma {:induction false} CamelCaseOfKebab(s: string)
    requires '-' !in s
    ensures CamelCase(LowerCase(DashBeforeUpper(s))) == s
  {
    if s != [] {
      var c, tail := s[0], s[1..];
      assert s == [c] + tail;
      assert DashBeforeUpper(s) == (if IsUpper(c) then ['-', c] else [c]) + DashBeforeUpper(tail);
      LowerCaseConcat(if IsUpper(c) then ['-', c] else [c], DashBeforeUpper(tail));
      var rest := LowerCase(DashBeforeUpper(tail));
      CamelCaseOfKebab(tail);
      if IsUpper(c) {
        assert LowerCase(['-', c]) == ['-', ToLower(c)];
        var t := ['-', ToLower(c)] + rest;
        assert t[2..] == rest;
      } else {
        assert LowerCase([c]) == [c];
        var t := [c] + rest;
        assert t[1..] == rest;
      }
    }
  }

  /** Property names without dashes never share a custom property. */
  lemma CssVarNameInjective(a: string, b: string)
    requires '-' !in a && '-' !in b
    requires CssVarName(a) == CssVarName(b)
    ensures a == b
  {
    assert LowerCase(DashBeforeUpper(a)) == CssVarName(a)[2..];
    assert LowerCase(DashBeforeUpper(b)) == CssVarName(b)[2..];
    CamelCaseOfKebab(a);
    CamelCaseOfKebab(b);
  }
}
