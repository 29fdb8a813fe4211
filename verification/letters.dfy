/** The live falling letters: the children of the play area, in the order they
    were appended, and the pure operations the event handlers apply to them. */
module Letters {

  /** One falling letter element: its identity, its one-character text, the
      fall duration its animation was given, and whether it carries the "hit"
      class. */
  datatype FallingLetter = FallingLetter(id: nat, text: char, fallDuration: nat, hit: bool)

  /** The letter a random draw picks: draw `r` (the floor of a uniform
      number times 26) selects the r-th capital letter. */
  function LetterFor(r: nat): (c: char)
    requires r < 26
    ensures 'A' <= c <= 'Z'
  {
    (65 + r) as char
  }

  /** Every capital letter can be spawned. */
  lemma EveryLetterSpawnable(c: char)
    requires 'A' <= c <= 'Z'
    ensures exists r: nat :: r < 26 && LetterFor(r) == c
  {
    var r: nat := c as int - 65;
    assert LetterFor(r) == c;
  }

  /** Upper-casing of one character, restricted to the characters whose upper
      case is a single capital letter: 'a'..'z', the dotless i and the long s.
      Every other character is left as it is. */
  function UpperChar(c: char): (u: char)
    ensures 'A' <= u <= 'Z' <==> 'A' <= c <= 'Z' || 'a' <= c <= 'z' || c == 'ı' || c == 'ſ'
    ensures 'A' <= c <= 'Z' ==> u == c
    ensures 'a' <= c <= 'z' ==> u as int - 'A' as int == c as int - 'a' as int
    ensures c == 'ı' ==> u == 'I'
    ensures c == 'ſ' ==> u == 'S'
  {
    if 'a' <= c <= 'z' then (c as int - 32) as char
    else if c == 'ı' then 'I'
    else if c == 'ſ' then 'S'
    else c
  }

  /** Upper-casing of a key name, one character at a time. */
  function ToUpper(key: string): (k: string)
    ensures |k| == |key|
    ensures forall i :: 0 <= i < |key| ==> k[i] == UpperChar(key[i])
  {
    seq(|key|, i requires 0 <= i < |key| => UpperChar(key[i]))
  }

  /** A pressed key (already upper-cased) hits a letter when the letter's text
      equals it as a string. */
  predicate Matches(l: FallingLetter, pressed: string)
    ensures Matches(l, pressed) <==> pressed == [l.text]
  {
    |pressed| == 1 && pressed[0] == l.text
  }

  /** Only a one-character key can hit a letter, and after upper-casing only a
      key that names a letter of either case does. */
  lemma MatchNeedsLetterKey(l: FallingLetter, key: string)
    requires 'A' <= l.text <= 'Z'
    ensures Matches(l, ToUpper(key)) <==> |key| == 1 && UpperChar(key[0]) == l.text
  {
  }

  /** The keys that hit a capital letter: the letter itself, its lower-case
      form, and for 'I' the dotless i and for 'S' the long s. */
  lemma KeyHits(l: FallingLetter, key: string)
    requires 'A' <= l.text <= 'Z'
    ensures Matches(l, ToUpper(key)) <==>
              key == [l.text] || key == [(l.text as int + 32) as char] ||
              (l.text == 'I' && key == ['ı']) || (l.text == 'S' && key == ['ſ'])
  {
    MatchNeedsLetterKey(l, key);
    if |key| == 1 {
      var c := key[0];
      assert key == [c];
      if 'a' <= c <= 'z' {
        assert UpperChar(c) == l.text <==> c == (l.text as int + 32) as char;
      }
    }
  }

  /** The number of letters that `pressed` hits. */
  function CountMatching(ls: seq<FallingLetter>, pressed: string): (n: nat)
    ensures n <= |ls|
  {
    if ls == [] then 0
    else (if Matches(ls[0], pressed) then 1 else 0) + CountMatching(ls[1..], pressed)
  }

  /** No letter is hit exactly when the count is zero, and every letter is
      hit exactly when the count is the number of letters. */
  lemma {:induction false} CountMatchingExtremes(ls: seq<FallingLetter>, pressed: string)
    ensures CountMatching(ls, pressed) == 0 <==> forall i :: 0 <= i < |ls| ==> !Matches(ls[i], pressed)
    ensures CountMatching(ls, pressed) == |ls| <==> forall i :: 0 <= i < |ls| ==> Matches(ls[i], pressed)
  {
    if ls != [] {
      CountMatchingExtremes(ls[1..], pressed);
      assert forall i :: 0 < i < |ls| ==> ls[i] == ls[1..][i - 1];
    }
  }

  /** Counting over a concatenation adds up the counts of its parts. */
  lemma {:induction false} CountMatchingAppend(a: seq<FallingLetter>, b: seq<FallingLetter>, pressed: string)
    ensures CountMatching(a + b, pressed) == CountMatching(a, pressed) + CountMatching(b, pressed)
  {
    if a == [] {
      assert a + b == b;
    } else {
      assert (a + b)[1..] == a[1..] + b;
      CountMatchingAppend(a[1..], b, pressed);
    }
  }

  /** The identities of the letters that `pressed` hits, in play-area order. */
  function MatchingIds(ls: seq<FallingLetter>, pressed: string): (ids: seq<nat>)
    ensures |ids| <= |ls|
  {
    if ls == [] then []
    else (if Matches(ls[0], pressed) then [ls[0].id] else []) + MatchingIds(ls[1..], pressed)
  }

  /** Every identity collected belongs to a letter that the key hits. */
  lemma {:induction false} MatchingIdsFromHits(ls: seq<FallingLetter>, pressed: string, id: nat)
    requires id in MatchingIds(ls, pressed)
    ensures exists i :: 0 <= i < |ls| && ls[i].id == id && Matches(ls[i], pressed)
  {
    if !(Matches(ls[0], pressed) && ls[0].id == id) {
      MatchingIdsFromHits(ls[1..], pressed, id);
      var i :| 0 <= i < |ls[1..]| && ls[1..][i].id == id && Matches(ls[1..][i], pressed);
      assert ls[i + 1] == ls[1..][i];
    }
  }

  /** One identity per hit letter: the number of identities is the number of hits. */
  lemma {:induction false} MatchingIdsCount(ls: seq<FallingLetter>, pressed: string)
    ensures |MatchingIds(ls, pressed)| == CountMatching(ls, pressed)
  {
    if ls != [] {
      MatchingIdsCount(ls[1..], pressed);
    }
  }

  /** Collecting identities over a concatenation unites the parts' identities. */
  lemma {:induction false} MatchingIdsAppend(a: seq<FallingLetter>, b: seq<FallingLetter>, pressed: string)
    ensures MatchingIds(a + b, pressed) == MatchingIds(a, pressed) + MatchingIds(b, pressed)
  {
    if a == [] {
      assert a + b == b;
    } else {
      var head := if Matches(a[0], pressed) then [a[0].id] else [];
      assert (a + b)[0] == a[0] && (a + b)[1..] == a[1..] + b;
      MatchingIdsAppend(a[1..], b, pressed);
      calc {
        MatchingIds(a + b, pressed);
        head + MatchingIds(a[1..] + b, pressed);
        head + (MatchingIds(a[1..], pressed) + MatchingIds(b, pressed));
        (head + MatchingIds(a[1..], pressed)) + MatchingIds(b, pressed);
      }
    }
  }

  /** Extending a prefix by one letter adds that letter's hit, if any, to the
      count and to the identities. */
  lemma PrefixStep(ls: seq<FallingLetter>, i: nat, pressed: string)
    requires i < |ls|
    ensures CountMatching(ls[..i + 1], pressed) == CountMatching(ls[..i], pressed) + (if Matches(ls[i], pressed) then 1 else 0)
    ensures MatchingIds(ls[..i + 1], pressed) == MatchingIds(ls[..i], pressed) + (if Matches(ls[i], pressed) then [ls[i].id] else [])
  {
    assert ls[..i + 1] == ls[..i] + [ls[i]];
    CountMatchingAppend(ls[..i], [ls[i]], pressed);
    MatchingIdsAppend(ls[..i], [ls[i]], pressed);
  }

  /** A letter after a key press: it gains the "hit" class when the key hits it. */
  function Mark(l: FallingLetter, pressed: string): (m: FallingLetter)
    ensures m.id == l.id && m.text == l.text && m.fallDuration == l.fallDuration
    ensures m.hit <==> l.hit || Matches(l, pressed)
  {
    if Matches(l, pressed) then l.(hit := true) else l
  }

  /** Every letter after a key press, in place. */
  function MarkHits(ls: seq<FallingLetter>, pressed: string): (r: seq<FallingLetter>)
    ensures |r| == |ls|
    ensures forall i :: 0 <= i < |ls| ==> r[i].id == ls[i].id && r[i].text == ls[i].text && r[i].fallDuration == ls[i].fallDuration
    ensures forall i :: 0 <= i < |ls| ==> (r[i].hit <==> ls[i].hit || Matches(ls[i], pressed))
  {
    seq(|ls|, i requires 0 <= i < |ls| => Mark(ls[i], pressed))
  }

  /** Marking hits keeps the letters in spawn order and keeps their texts. */
  lemma MarkHitsKeepsOrder(ls: seq<FallingLetter>, pressed: string)
    requires Increasing(ls)
    ensures Increasing(MarkHits(ls, pressed))
  {
    var r := MarkHits(ls, pressed);
    forall i, j | 0 <= i < j < |r| ensures r[i].id < r[j].id {
      assert r[i].id == ls[i].id && r[j].id == ls[j].id;
    }
  }

  /** Every letter that is hit has its identity among the hit identities. */
  lemma {:induction false} MatchingIdsHas(ls: seq<FallingLetter>, i: nat, pressed: string)
    requires i < |ls| && Matches(ls[i], pressed)
    ensures ls[i].id in MatchingIds(ls, pressed)
  {
    if i > 0 {
      assert ls[1..][i - 1] == ls[i];
      MatchingIdsHas(ls[1..], i - 1, pressed);
    }
  }

  /** Every letter marked hit has a removal pending in `pending`. */
  predicate HitsPending(ls: seq<FallingLetter>, pending: seq<nat>)
  {
    forall i :: 0 <= i < |ls| && ls[i].hit ==> ls[i].id in pending
  }

  /** A key press that schedules one removal per hit keeps every hit letter
      covered by a pending removal. */
  lemma MarkHitsKeepsPending(ls: seq<FallingLetter>, pending: seq<nat>, pressed: string)
    requires HitsPending(ls, pending)
    ensures HitsPending(MarkHits(ls, pressed), pending + MatchingIds(ls, pressed))
  {
    var r := MarkHits(ls, pressed);
    forall i | 0 <= i < |r| && r[i].hit
      ensures r[i].id in pending + MatchingIds(ls, pressed)
    {
      if !ls[i].hit {
        MatchingIdsHas(ls, i, pressed);
      }
    }
  }

  /** A key that hits no letter leaves every letter as it was and schedules
      no removal. */
  lemma NoMatchNoChange(ls: seq<FallingLetter>, pressed: string)
    requires CountMatching(ls, pressed) == 0
    ensures MarkHits(ls, pressed) == ls
    ensures MatchingIds(ls, pressed) == []
  {
    CountMatchingExtremes(ls, pressed);
    MatchingIdsCount(ls, pressed);
    forall i | 0 <= i < |ls|
      ensures MarkHits(ls, pressed)[i] == ls[i]
    {
      assert !Matches(ls[i], pressed);
    }
  }

  /** Whether the play area contains the letter with identity `id`. */
  predicate Contains(ls: seq<FallingLetter>, id: nat)
  {
    exists i :: 0 <= i < |ls| && ls[i].id == id
  }

  /** Identities strictly increase along the list: letters sit in the order
      they were spawned and no element appears twice. */
  predicate Increasing(ls: seq<FallingLetter>)
  {
    forall i, j :: 0 <= i < j < |ls| ==> ls[i].id < ls[j].id
  }

  /** The play area after removing the element with identity `id`; nothing
      else is removed and nothing is added. */
  function Remove(ls: seq<FallingLetter>, id: nat): (r: seq<FallingLetter>)
    ensures forall l :: l in r <==> l in ls && l.id != id
    ensures |r| <= |ls|
  {
    if ls == [] then []
    else if ls[0].id == id then Remove(ls[1..], id)
    else [ls[0]] + Remove(ls[1..], id)
  }

  /** Removing an identity the play area does not contain changes nothing. */
  lemma {:induction false} RemoveAbsent(ls: seq<FallingLetter>, id: nat)
    requires !Contains(ls, id)
    ensures Remove(ls, id) == ls
  {
    if ls != [] {
      assert !Contains(ls[1..], id) by {
        forall i | 0 <= i < |ls[1..]| ensures ls[1..][i].id != id {
          assert ls[1..][i] == ls[i + 1];
        }
      }
      RemoveAbsent(ls[1..], id);
    }
  }

  /** Removing a contained identity from a well-ordered play area removes
      exactly one element and keeps the rest in order. */
  lemma {:induction false} RemovePresent(ls: seq<FallingLetter>, id: nat)
    requires Increasing(ls) && Contains(ls, id)
    ensures |Remove(ls, id)| == |ls| - 1
    ensures Increasing(Remove(ls, id))
  {
    var tail := ls[1..];
    assert Increasing(tail) by {
      forall i, j | 0 <= i < j < |tail| ensures tail[i].id < tail[j].id {
        assert tail[i] == ls[i + 1] && tail[j] == ls[j + 1];
      }
    }
    assert forall k :: 0 <= k < |tail| ==> ls[0].id < tail[k].id by {
      forall k | 0 <= k < |tail| ensures ls[0].id < tail[k].id {
        assert tail[k] == ls[k + 1];
      }
    }
    if ls[0].id == id {
      assert !Contains(tail, id);
      RemoveAbsent(tail, id);
    } else {
      assert Contains(tail, id) by {
        var i :| 0 <= i < |ls| && ls[i].id == id;
        assert tail[i - 1] == ls[i];
      }
      RemovePresent(tail, id);
      assert forall l :: l in tail ==> ls[0].id < l.id;
      RemoveKeepsIncreasingHead(ls[0], Remove(tail, id), tail);
    }
  }

  /** Putting a smaller identity in front of a subset of bigger ones keeps the order. */
  lemma RemoveKeepsIncreasingHead(head: FallingLetter, rest: seq<FallingLetter>, tail: seq<FallingLetter>)
    requires Increasing(rest)
    requires forall l :: l in tail ==> head.id < l.id
    requires forall l :: l in rest ==> l in tail
    ensures Increasing([head] + rest)
  {
    forall i, j | 0 <= i < j < |[head] + rest|
      ensures ([head] + rest)[i].id < ([head] + rest)[j].id
    {
      if i == 0 {
        assert ([head] + rest)[j] == rest[j - 1];
        assert rest[j - 1] in tail;
      }
    }
  }

  /** Removal never breaks the order, whether or not the identity is present. */
  lemma RemoveKeepsIncreasing(ls: seq<FallingLetter>, id: nat)
    requires Increasing(ls)
    ensures Increasing(Remove(ls, id))
  {
    if Contains(ls, id) {
      RemovePresent(ls, id);
    } else {
      RemoveAbsent(ls, id);
    }
  }
}
