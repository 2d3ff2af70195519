/**
 * Case-insensitive keyword matching as both keyword filters perform it: each keyword is
 * checked with `keyword.lower() in text.lower()` and the hits are collected in list order.
 */
module Keywords {
  import opened Text

  /** The keywords of `keywords`, in list order and with repeats, that occur in `text` ignoring case. */
  function Matching(keywords: seq<string>, text: string): (found: seq<string>)
  {
    if keywords == [] then []
    else (if ContainsIgnoreCase(text, keywords[0]) then [keywords[0]] else []) + Matching(keywords[1..], text)
  }

  /** A keyword is reported exactly when it is listed and occurs in the text. */
  lemma {:induction false} MatchingMember(keywords: seq<string>, text: string, k: string)
    ensures k in Matching(keywords, text) <==> k in keywords && ContainsIgnoreCase(text, k)
  {
    if keywords != [] {
      MatchingMember(keywords[1..], text, k);
      assert keywords == [keywords[0]] + keywords[1..];
    }
  }

  /** Matching keeps list order: it distributes over concatenation of keyword lists. */
  lemma {:induction false} MatchingAppend(a: seq<string>, b: seq<string>, text: string)
    ensures Matching(a + b, text) == Matching(a, text) + Matching(b, text)
  {
    if a != [] {
      MatchingAppend(a[1..], b, text);
      assert (a + b)[1..] == a[1..] + b;
    } else {
      assert a + b == b;
    }
  }

  /** No keyword occurs exactly when nothing is reported. */
  lemma MatchingEmptyIff(keywords: seq<string>, text: string)
    ensures Matching(keywords, text) == [] <==> forall k :: k in keywords ==> !ContainsIgnoreCase(text, k)
  {
    if Matching(keywords, text) != [] {
      MatchingMember(keywords, text, Matching(keywords, text)[0]);
    } else {
      forall k | k in keywords ensures !ContainsIgnoreCase(text, k) {
        MatchingMember(keywords, text, k);
      }
    }
  }

  /** The step a keyword loop takes: matching one more keyword at the end of the list. */
  lemma MatchingSnoc(keywords: seq<string>, i: nat, text: string)
    requires i < |keywords|
    ensures Matching(keywords[..i + 1], text)
         == Matching(keywords[..i], text) + (if ContainsIgnoreCase(text, keywords[i]) then [keywords[i]] else [])
  {
    assert keywords[..i + 1] == keywords[..i] + [keywords[i]];
    MatchingAppend(keywords[..i], [keywords[i]], text);
  }

  /** A keyword listed twice in a row that occurs in the text is reported twice in a row. */
  lemma MatchingRepeat(keywords: seq<string>, i: nat, text: string) returns (j: nat)
    requires i + 1 < |keywords| && keywords[i] == keywords[i + 1] && ContainsIgnoreCase(text, keywords[i])
    ensures j + 1 < |Matching(keywords, text)|
    ensures Matching(keywords, text)[j] == keywords[i] && Matching(keywords, text)[j + 1] == keywords[i]
  {
    var front, keyword, back := keywords[..i], keywords[i], keywords[i + 2..];
    assert keywords == front + [keyword, keyword] + back;
    MatchingAppend(front + [keyword, keyword], back, text);
    MatchingAppend(front, [keyword, keyword], text);
    assert Matching([keyword, keyword], text) == [keyword, keyword] by {
      assert [keyword, keyword][1..] == [keyword];
      assert [keyword][1..] == [];
      assert Matching([keyword], text) == [keyword] + Matching([], text);
      assert Matching([keyword, keyword], text) == [keyword] + Matching([keyword], text);
    }
    j := |Matching(front, text)|;
  }
}
