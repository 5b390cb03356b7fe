module CacheExamples {
  import opened Strings
  import opened Cache

  lemma ToLowerAppend(a: string, b: string)
    ensures ToLower(a + b) == ToLower(a) + ToLower(b)
  {
  }

  lemma ExampleLowered()
    ensures ToLower(StripScheme("op://Vault/Item/Field")) == "vault/item/field"
  {
    assert "op://Vault/Item/Field"[5..] == "Vault/Item/Field";
    LowerWords("Vault", "Item", "Field", "vault", "item", "field", '/');
    PathPieces();
  }

  lemma PathPieces()
    ensures "Vault" + ['/'] + "Item" + ['/'] + "Field" == "Vault/Item/Field"
    ensures "vault" + ['/'] + "item" + ['/'] + "field" == "vault/item/field"
    ensures LowerChar('V') == 'v' && LowerChar('I') == 'i' && LowerChar('F') == 'f'
  {
  }

  /** Lower-casing three words and two separators piece by piece. */
  lemma LowerWords(a: string, b: string, c: string, la: string, lb: string, lc: string, sep: char)
    requires ToLower(a) == la && ToLower(b) == lb && ToLower(c) == lc && LowerChar(sep) == sep
    ensures ToLower(a + [sep] + b + [sep] + c) == la + [sep] + lb + [sep] + lc
  {
    ToLowerAppend(a, [sep]);
    ToLowerAppend(a + [sep], b);
    ToLowerAppend(a + [sep] + b, [sep]);
    ToLowerAppend(a + [sep] + b + [sep], c);
  }

  lemma ExampleCollapsed()
    ensures Collapse("vault/item/field") == "vault-item-field"
  {
    CollapseWords("vault", "item", "field", '/');
    VaultPieces();
  }

  lemma VaultPieces()
    ensures "vault" + ['/'] + "item" + ['/'] + "field" == "vault/item/field"
    ensures "vault" + "-" + "item" + "-" + "field" == "vault-item-field"
  {
  }

  /** Three words with one separator between each: the separators become dashes. */
  lemma CollapseWords(a: string, b: string, c: string, sep: char)
    requires forall i | 0 <= i < |a| :: IsSlugChar(a[i])
    requires |b| > 0 && forall i | 0 <= i < |b| :: IsSlugChar(b[i])
    requires forall i | 0 <= i < |c| :: IsSlugChar(c[i])
    requires !IsSlugChar(sep)
    ensures Collapse(a + [sep] + b + [sep] + c) == a + "-" + b + "-" + c
  {
    var t1 := [sep] + c;
    var t2 := [sep] + (b + t1);
    SepJoin(a, b, c, sep);
    CollapseWordAlone(c);
    WordThenSep(b, sep, c);
    WordThenSep(a, sep, b + t1);
    DashJoin(a, b, c);
  }

  lemma SepJoin(a: string, b: string, c: string, sep: char)
    ensures a + [sep] + b + [sep] + c == a + ([sep] + (b + ([sep] + c)))
  {
  }

  lemma CollapseWordAlone(w: string)
    requires forall i | 0 <= i < |w| :: IsSlugChar(w[i])
    ensures Collapse(w) == w
  {
    CollapseWord(w, []);
    assert w + [] == w;
  }

  /** A word, one separator, and text starting a word: the separator becomes a dash. */
  lemma WordThenSep(w: string, sep: char, t: string)
    requires forall i | 0 <= i < |w| :: IsSlugChar(w[i])
    requires !IsSlugChar(sep) && (t == [] || IsSlugChar(t[0]))
    ensures Collapse(w + ([sep] + t)) == w + ("-" + Collapse(t))
  {
    CollapseSeparator(sep, t);
    CollapseWord(w, [sep] + t);
  }

  lemma DashJoin(a: string, b: string, c: string)
    ensures a + ("-" + (b + ("-" + c))) == a + "-" + b + "-" + c
  {
  }

  lemma SlugifyExample()
    ensures SlugifyPath("op://Vault/Item/Field") == "vault-item-field"
  {
    ExampleLowered();
    ExampleCollapsed();
    assert DashFreeEnds("vault-item-field");
  }

  lemma SchemeOnceLowered()
    ensures ToLower(StripScheme("op://op://x")) == "op://x"
  {
    assert "op://op://x"[5..] == "op://x";
    assert StripScheme("op://op://x") == "op://x";
  }

  lemma SchemeOnceCollapsed()
    ensures Collapse("op://x") == "op-x"
  {
    var op, x := "op", "x";
    var seps := "://";
    DropSeparators(seps, x);
    CollapseWord(x, []);
    CollapseWord(op, seps + x);
    calc {
      Collapse(op + (seps + x));
      op + Collapse(seps + x);
      op + ("-" + Collapse(x));
      op + ("-" + (x + Collapse([])));
    }
    assert op + (seps + x) == "op://x";
    assert op + ("-" + (x + [])) == "op-x";
  }

  /** A run of separators before a word becomes a single dash. */
  lemma {:induction false} DropSeparators(seps: string, w: string)
    requires |seps| > 0 && forall i | 0 <= i < |seps| :: !IsSlugChar(seps[i])
    requires w == [] || IsSlugChar(w[0])
    ensures Collapse(seps + w) == "-" + Collapse(w)
  {
    var s := seps + w;
    assert s[0] == seps[0];
    DropRunPrefix(seps, w);
    CollapseAtSeparator(s);
  }

  /** A separator at the front becomes a dash, and its whole run goes. */
  lemma CollapseAtSeparator(s: string)
    requires s != [] && !IsSlugChar(s[0])
    ensures Collapse(s) == "-" + Collapse(DropRun(s))
  {
  }

  lemma {:induction false} DropRunPrefix(seps: string, w: string)
    requires forall i | 0 <= i < |seps| :: !IsSlugChar(seps[i])
    requires w == [] || IsSlugChar(w[0])
    ensures DropRun(seps + w) == w
    decreases |seps|
  {
    if seps == [] {
      assert seps + w == w;
    } else {
      assert (seps + w)[1..] == seps[1..] + w;
      DropRunPrefix(seps[1..], w);
    }
  }

  /** Only a leading scheme is removed: a second one is slugified like any other text. */
  lemma SlugifySchemeOnce()
    ensures SlugifyPath("op://op://x") == "op-x"
  {
    SchemeOnceLowered();
    SchemeOnceCollapsed();
    assert DashFreeEnds("op-x");
  }
}
