/** `std::istringstream`: text, a read position and a fail bit that sticks once set. */
module InputStreams {
  import opened Texts
  import opened Numbers

  /** What is left of a word after its first `k` characters. */
  function RestOfWord(w: string, k: nat): seq<string>
    requires k <= |w|
  {
    if k == |w| then [] else [w[k..]]
  }

  /** The words still to come after `>> size_t`: a good number may leave part of its word behind,
      a bad one sets the fail bit, and after that nothing comes. */
  function AfterSize(ws: seq<string>): seq<string> {
    if ws == [] then []
    else
      var r := ScanSize(ws[0]);
      if r.bad then [] else RestOfWord(ws[0], r.used) + ws[1..]
  }

  /** A position inside a word leaves the rest of that word and all the words behind it. */
  lemma WordsInsideWord(s: string, i: nat, k: nat)
    requires i < |s| && i + k <= WordEnd(s, i)
    ensures var end := WordEnd(s, i);
            WordsFrom(s, i + k) == RestOfWord(s[i..end], k) + WordsFrom(s, end)
  {
    var end := WordEnd(s, i);
    WordEndInside(s, i, i + k);
    if i + k < end {
      assert s[i..end][k..] == s[i + k..end];
    } else {
      assert [] + WordsFrom(s, end) == WordsFrom(s, end);
    }
  }

  /** What a number extracted at position `i` leaves. */
  lemma SizeTaken(s: string, i: nat, words: seq<string>, scan: Scan)
    requires i < |s| && scan == ScanSize(s[i..WordEnd(s, i)])
    requires words == [s[i..WordEnd(s, i)]] + WordsFrom(s, WordEnd(s, i))
    ensures i + scan.used <= |s| && words != [] && ScanSize(words[0]) == scan
    ensures AfterSize(words) == if scan.bad then [] else WordsFrom(s, i + scan.used)
  {
    WordsInsideWord(s, i, scan.used);
  }

  class InputStream {
    const text: string
    var pos: nat
    var failed: bool
    ghost var pending: seq<string>  // the words that further extractions will deliver

    /** `pending` is what the text says. The trigger keeps this out of the proofs of clients,
        who see words only; the methods below ask for it with `Look`. */
    ghost predicate Valid()
      reads this
    {
      && pos <= |text|
      && forall i {:trigger Look(i)} ::
           Look(i) && i == pos ==> pending == if failed then [] else WordsFrom(text, i)
    }

    static ghost predicate Look(i: nat) { true }

    constructor (text: string)
      ensures this.text == text && Valid() && pending == Words(text)
    {
      this.text := text;
      pos, failed := 0, false;
      pending := Words(text);
    }

    /** Skips white space; without anything after it the fail bit is set. */
    method Sentry() returns (good: bool)
      requires Valid()
      modifies `pos, `failed
      ensures Valid() && failed == !good
      ensures good ==> pos < |text| && !IsSpace(text[pos])
      ensures good ==> pending == [text[pos..WordEnd(text, pos)]] + WordsFrom(text, WordEnd(text, pos))
      ensures !good ==> pending == []
    {
      assert Look(pos);
      if failed {
        return false;
      }
      pos := SpaceEnd(text, pos);
      good := pos < |text|;
      failed := !good;
    }

    /** `stream >> buf`: on failure the old value of the buffer stays. */
    method ReadWord(buf: string) returns (ok: bool, word: string)
      requires Valid()
      modifies this
      ensures Valid()
      ensures ok == (old(pending) != []) && (!ok ==> failed)
      ensures ok ==> word == old(pending)[0] && pending == old(pending)[1..]
      ensures !ok ==> word == buf && pending == []
    {
      ok := Sentry();
      if !ok {
        return false, buf;
      }
      var end := WordEnd(text, pos);
      word := text[pos..end];
      pos := end;
      pending := pending[1..];
    }

    /** `stream >> number`: nothing is stored when nothing is left to read. */
    method ReadSize(number: nat) returns (n: nat)
      requires Valid()
      modifies this
      ensures Valid()
      ensures n == if old(pending) == [] then number else ScanSize(old(pending)[0]).value
      ensures pending == AfterSize(old(pending))
    {
      var good := Sentry();
      if !good {
        return number;
      }
      var scan := ScanSize(text[pos..WordEnd(text, pos)]);
      SizeTaken(text, pos, pending, scan);
      pos := pos + scan.used;
      failed := scan.bad;
      n := scan.value;
      pending := if failed then [] else WordsFrom(text, pos);
    }
  }
}
