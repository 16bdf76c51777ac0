/**
 * Rewriting lemmas about the reference grammar of module TokenSpec: how
 * leading whitespace, a closed quoted segment and a bare fragment unfold in
 * `DropSpaces`, `Quoted`, `Word`, `Continue` and `Words`.
 */
module TokenProperties {
  import opened CharClass
  import opened TokenSpec

  /** A fragment of bare characters: no whitespace and no quote. */
  predicate IsBare(u: string) {
    forall k | 0 <= k < |u| :: !IsSpace(u[k]) && u[k] != Quote
  }

  // ---------------------------------------------------------------------
  // Rewriting lemmas: how the character-level grammar reads whole runs.
  // ---------------------------------------------------------------------

  /** Leading whitespace is dropped up to the first character that is not whitespace. */
  lemma {:induction false} DropSpacesAfter(sp: string, t: string)
    requires AllSpaces(sp)
    requires t == [] || !IsSpace(t[0])
    ensures DropSpaces(sp + t) == t
  {
    if sp != [] {
      assert (sp + t)[1..] == sp[1..] + t;
      DropSpacesAfter(sp[1..], t);
    }
  }

  /** A quoted segment ends at the first quote. */
  lemma {:induction false} QuotedAt(q: string, r: string)
    requires QuoteFree(q)
    ensures Quoted(q + [Quote] + r) == Some(Scan(q, r))
  {
    if q != [] {
      assert (q + [Quote] + r)[1..] == q[1..] + [Quote] + r;
      QuotedAt(q[1..], r);
      assert [q[0]] + q[1..] == q;
    }
  }

  /** Putting two prefixes in front of a scanned word, one after the other. */
  lemma PrependTwice(a: string, b: string, r: Option<Scan>)
    ensures PrependText(a, PrependText(b, r)) == PrependText(a + b, r)
  {
    if r.Some? {
      assert a + (b + r.value.text) == a + b + r.value.text;
    }
  }

  /** A run of bare characters at the front of a word is copied into it. */
  lemma {:induction false} WordBarePrefix(u: string, t: string)
    requires IsBare(u)
    ensures Word(u + t) == PrependText(u, Word(t))
  {
    if u == [] {
      assert u + t == t;
      if Word(t).Some? {
        assert [] + Word(t).value.text == Word(t).value.text;
      }
    } else {
      var s := u + t;
      assert s[0] == u[0] && s[1..] == u[1..] + t;
      assert Word(s) == PrependText([u[0]], Word(s[1..]));
      WordBarePrefix(u[1..], t);
      PrependTwice([u[0]], u[1..], Word(t));
      assert [u[0]] + u[1..] == u;
    }
  }

  /** The bare run can be moved from the text into the word in progress. */
  lemma ContinueBare(cur: string, u: string, t: string)
    requires IsBare(u)
    ensures Continue(cur, u + t) == Continue(cur + u, t)
  {
    WordBarePrefix(u, t);
    match Word(t)
    case None =>
    case Some(w) =>
      assert cur + (u + w.text) == cur + u + w.text;
  }

  /** An opening quote continues the word with the quoted text. */
  lemma ContinueQuote(cur: string, rest: string)
    ensures Continue(cur, [Quote] + rest) == ContinueQuoted(cur, Quoted(rest))
  {
    var s := [Quote] + rest;
    assert s[0] == Quote && s[1..] == rest;
    assert !IsSpace(Quote);
    match Quoted(rest)
    case None =>
      assert Word(s) == None;
    case Some(q) =>
      assert Word(s) == PrependText(q.text, Word(q.rest));
      match Word(q.rest)
      case None =>
      case Some(w) =>
        assert cur + (q.text + w.text) == cur + q.text + w.text;
  }

  /** At whitespace or at the end of the line, the word in progress ends. */
  lemma ContinueAtBoundary(cur: string, t: string)
    requires t == [] || IsSpace(t[0])
    ensures Continue(cur, t) == Close(cur, t)
  {
    assert cur + [] == cur;
  }

  /** Skipping the whitespace before a word leaves a fresh word to read. */
  lemma WordsAfterSpaces(sp: string, t: string)
    requires AllSpaces(sp)
    requires t == [] || !IsSpace(t[0])
    ensures Words(sp + t) == Continue([], t)
  {
    DropSpacesAfter(sp, t);
    if t != [] {
      match Word(t)
      case None =>
      case Some(w) =>
        assert [] + w.text == w.text;
    }
  }
}
