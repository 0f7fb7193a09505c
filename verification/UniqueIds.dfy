/** Process and thread ids made unique (fxprof-processed-profile/src/profile.rs, `make_unique_pid_or_tid`). */
module UniqueIds {
  import opened Prelude

  /** The first use prints the id, later uses append a counter. The map holds the next counter. */
  function MakeUnique(used: map<u32, nat>, id: u32): (map<u32, nat>, string) {
    if id in used then (used[id := used[id] + 1], DecimalDigits(id) + "." + DecimalDigits(used[id]))
    else (used[id := 1], DecimalDigits(id))
  }

  function UseText(id: u32, use: nat): string {
    if use == 0 then DecimalDigits(id) else DecimalDigits(id) + "." + DecimalDigits(use)
  }

  /** The text of the first use is the id; later ones append a dot and how many uses were before. */
  ghost predicate ShowsUse(text: string, id: u32, use: nat) {
    if use == 0 then Prints(text, id, 10)
    else exists n: nat :: n < |text| && text[n] == '.' && Prints(text[..n], id, 10) && Prints(text[n + 1..], use, 10)
  }

  lemma UseTextReads(id: u32, use: nat)
    ensures ShowsUse(UseText(id, use), id, use)
  {
    DecimalDigitsPrint(id);
    DecimalDigitsPrint(use);
    var a, b := DecimalDigits(id), DecimalDigits(use);
    var text := a + "." + b;
    assert text[|a|] == '.' && text[..|a|] == a && text[|a| + 1..] == b;
  }

  lemma DotPosition(a: string, b: string, c: string, d: string)
    requires '.' !in a && '.' !in c && a + "." + b == c + "." + d
    ensures a == c && b == d
  {
    var s, t := a + "." + b, c + "." + d;
    assert forall i :: 0 <= i < |a| ==> s[i] == a[i] && a[i] != '.';
    assert forall i :: 0 <= i < |c| ==> t[i] == c[i] && c[i] != '.';
    assert s[|a|] == '.' && t[|c|] == '.';
    assert |a| == |c|;
    assert s[..|a|] == a && t[..|c|] == c;
    assert s[|a| + 1..] == b && t[|c| + 1..] == d;
  }

  lemma OnlyLaterUsesHaveDot(id: u32, use: nat)
    ensures '.' in UseText(id, use) <==> use != 0
  {
    DecimalDigitsShape(id);
    assert use != 0 ==> UseText(id, use)[|DecimalDigits(id)|] == '.';
  }

  /** Each use of each id has its own text. */
  lemma UseTextInjective(id: u32, use: nat, id': u32, use': nat)
    requires UseText(id, use) == UseText(id', use')
    ensures id == id' && use == use'
  {
    DecimalDigitsShape(id);
    DecimalDigitsShape(id');
    OnlyLaterUsesHaveDot(id, use);
    OnlyLaterUsesHaveDot(id', use');
    if use == 0 {
      DecimalDigitsInjective(id, id');
    } else {
      DotPosition(DecimalDigits(id), DecimalDigits(use), DecimalDigits(id'), DecimalDigits(use'));
      DecimalDigitsInjective(id, id');
      DecimalDigitsInjective(use, use');
    }
  }

  ghost predicate HandedOut(used: map<u32, nat>, text: string) {
    exists id: u32, use: nat :: id in used && use < used[id] && text == UseText(id, use)
  }

  /** The map counts at least one use per id it knows. */
  ghost predicate Counting(used: map<u32, nat>) {
    forall id :: id in used ==> used[id] >= 1
  }

  /** Every text handed out differs from every text handed out before, for any ids in any order. */
  lemma TextIsFresh(used: map<u32, nat>, id: u32)
    requires Counting(used)
    ensures var (used', text) := MakeUnique(used, id);
      && Counting(used') && !HandedOut(used, text) && HandedOut(used', text)
      && (forall earlier :: HandedOut(used, earlier) ==> HandedOut(used', earlier))
  {
    var (used', text) := MakeUnique(used, id);
    var use := if id in used then used[id] else 0;
    assert text == UseText(id, use) && id in used' && use < used'[id];
    if HandedOut(used, text) {
      var id0: u32, use0: nat :| id0 in used && use0 < used[id0] && text == UseText(id0, use0);
      UseTextInjective(id, use, id0, use0);
    }
    forall earlier | HandedOut(used, earlier)
      ensures HandedOut(used', earlier)
    {
      var id0: u32, use0: nat :| id0 in used && use0 < used[id0] && earlier == UseText(id0, use0);
      assert id0 in used' && use0 < used'[id0];
    }
  }
}
