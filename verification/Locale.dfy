/** Localized of errx.go: the message for a locale, which may depend on the order of a map. */
module Locale {
  import opened Common
  import opened Errors
  import opened Text

  type Messages = map<string, string>

  // The language itself, or a variant of it.
  predicate SameLanguage(k: string, lang: string) {
    k == lang || (|k| > |lang| && k[..|lang|] == lang && k[|lang|] == '-')
  }

  // The first variant met when the keys are visited in this order.
  function FirstVariant(order: seq<string>, lang: string): Option<string> {
    if order == [] then None
    else if SameLanguage(order[0], lang) then Some(order[0])
    else FirstVariant(order[1..], lang)
  }

  // The keys of the map, each once.
  ghost predicate Visits(order: seq<string>, keys: set<string>) {
    (forall k :: k in order <==> k in keys) && forall i, j :: 0 <= i < j < |order| ==> order[i] != order[j]
  }

  // (*Error).Public
  function PublicOr(public: string, fallback: string): string {
    if public != "" then public else fallback
  }

  function Variant(locale: string, order: seq<string>): Option<string> {
    var i := IndexOf(locale, '-');
    if i > 0 then FirstVariant(order, locale[..i]) else None
  }

  lemma {:induction false} FirstVariantIsListed(order: seq<string>, lang: string)
    ensures var k := FirstVariant(order, lang);
            if k.Some? then k.value in order && SameLanguage(k.value, lang)
            else forall j :: j in order ==> !SameLanguage(j, lang)
  {
    if order != [] {
      FirstVariantIsListed(order[1..], lang);
      assert forall j :: j in order <==> j == order[0] || j in order[1..];
    }
  }

  function Answer(msgs: Messages, public: string, locale: string, fallback: string, order: seq<string>): string
    requires forall k :: k in order ==> k in msgs
  {
    if locale in msgs then msgs[locale]
    else
      var k := Variant(locale, order);
      if k.Some? then
        (FirstVariantIsListed(order, locale[..IndexOf(locale, '-')]); msgs[k.value])
      else PublicOr(public, fallback)
  }

  method Localized(e: Error, locale: string, fallback: string, order: seq<string>) returns (m: string)
    requires Visits(order, e.localized.Keys)
    ensures m == Answer(e.localized, e.publicMsg, locale, fallback, order)
  {
    if locale in e.localized {
      return e.localized[locale];
    }
    var i := IndexOf(locale, '-');
    if i > 0 {
      var lang := locale[..i];
      for n := 0 to |order|
        invariant FirstVariant(order[n..], lang) == FirstVariant(order, lang)
      {
        var k := order[n];
        assert order[n..][0] == k && order[n..][1..] == order[n + 1..];
        if k == lang || (|k| > |lang| && k[..|lang|] == lang && k[|lang|] == '-') {
          return e.localized[k];
        }
      }
    }
    m := PublicOr(e.publicMsg, fallback);
  }

  // k names the language of the locale, alone or with a suffix of its own.
  ghost predicate VariantOf(k: string, locale: string) {
    exists lang, rest :: locale == lang + "-" + rest && Speaks(k, lang, rest)
  }

  ghost predicate Speaks(k: string, lang: string, rest: string) {
    lang != "" && '-' !in lang && (k == lang || lang + "-" <= k)
  }

  ghost predicate IsFirst(n: int, order: seq<string>, locale: string) {
    0 <= n < |order| && VariantOf(order[n], locale) && forall i :: 0 <= i < n ==> !VariantOf(order[i], locale)
  }

  lemma VariantsSpeak(k: string, locale: string)
    ensures VariantOf(k, locale) <==> IndexOf(locale, '-') > 0 && SameLanguage(k, locale[..IndexOf(locale, '-')])
  {
    var i := IndexOf(locale, '-');
    IndexOfFirst(locale, '-');
    if i > 0 && SameLanguage(k, locale[..i]) {
      var lang, rest := locale[..i], locale[i + 1..];
      assert locale == lang + "-" + rest;
      assert |k| > |lang| ==> k[..|lang| + 1] == k[..|lang|] + [k[|lang|]];
      assert Speaks(k, lang, rest);
    }
    if VariantOf(k, locale) {
      var lang, rest :| locale == lang + "-" + rest && Speaks(k, lang, rest);
      assert locale[..|lang|] == lang && locale[|lang|] == '-';
      IndexOfIs(locale, '-', |lang|);
      if lang + "-" <= k {
        assert k[..|lang| + 1] == lang + "-";
        assert k[..|lang|] == k[..|lang| + 1][..|lang|] == lang && k[|lang|] == k[..|lang| + 1][|lang|];
      }
    }
  }

  lemma {:induction false} FirstVariantIs(order: seq<string>, lang: string, n: nat)
    requires n < |order| && SameLanguage(order[n], lang) && forall i :: 0 <= i < n ==> !SameLanguage(order[i], lang)
    ensures FirstVariant(order, lang) == Some(order[n])
  {
    if n > 0 {
      FirstVariantIs(order[1..], lang, n - 1);
    }
  }

  /** The exact locale wins; else the first variant of its language met; else the public message,
      or the fallback if there is none. */
  lemma AnswerIs(msgs: Messages, public: string, locale: string, fallback: string, order: seq<string>)
    requires Visits(order, msgs.Keys)
    ensures var m := Answer(msgs, public, locale, fallback, order);
            (locale in msgs ==> m == msgs[locale])
            && (locale !in msgs && (forall k :: k in msgs ==> !VariantOf(k, locale)) ==>
                  m == if public == "" then fallback else public)
            && forall n :: locale !in msgs && IsFirst(n, order, locale) ==> m == msgs[order[n]]
  {
    var i := IndexOf(locale, '-');
    forall k ensures VariantOf(k, locale) <==> i > 0 && SameLanguage(k, locale[..i]) {
      VariantsSpeak(k, locale);
    }
    if i > 0 {
      FirstVariantIsListed(order, locale[..i]);
      forall n | IsFirst(n, order, locale) ensures FirstVariant(order, locale[..i]) == Some(order[n]) {
        FirstVariantIs(order, locale[..i], n);
      }
    }
  }

  lemma {:induction false} Listing(keys: set<string>) returns (order: seq<string>)
    ensures Visits(order, keys)
    decreases |keys|
  {
    if keys == {} {
      order := [];
    } else {
      var k :| k in keys;
      var rest := Listing(keys - {k});
      order := [k] + rest;
    }
  }

  // Some order meets k first.
  lemma OrderFrom(k: string, keys: set<string>) returns (order: seq<string>)
    requires k in keys
    ensures Visits(order, keys) && order[0] == k
  {
    var rest := Listing(keys - {k});
    order := [k] + rest;
  }

  ghost predicate SameAnswer(msgs: Messages, public: string, locale: string, fallback: string,
                             o1: seq<string>, o2: seq<string>)
    requires Visits(o1, msgs.Keys) && Visits(o2, msgs.Keys)
  {
    Answer(msgs, public, locale, fallback, o1) == Answer(msgs, public, locale, fallback, o2)
  }

  // All variants of the locale's language carry one message.
  ghost predicate OneMessage(msgs: Messages, lang: string) {
    forall j, k :: j in msgs && k in msgs && SameLanguage(j, lang) && SameLanguage(k, lang) ==> msgs[j] == msgs[k]
  }

  /** The answer is the same in whatever order the map is visited if and only if the exact locale
      is there, or it names no language before a dash, or all variants of that language carry one
      message. */
  lemma OrderDoesNotMatter(msgs: Messages, public: string, locale: string, fallback: string)
    ensures (forall o1, o2 :: Visits(o1, msgs.Keys) && Visits(o2, msgs.Keys) ==>
              SameAnswer(msgs, public, locale, fallback, o1, o2))
       <==> locale in msgs || IndexOf(locale, '-') <= 0 || OneMessage(msgs, locale[..IndexOf(locale, '-')])
  {
    var i := IndexOf(locale, '-');
    if locale !in msgs && i > 0 {
      var lang := locale[..i];
      if OneMessage(msgs, lang) {
        forall o1, o2 | Visits(o1, msgs.Keys) && Visits(o2, msgs.Keys)
          ensures SameAnswer(msgs, public, locale, fallback, o1, o2)
        {
          FirstVariantIsListed(o1, lang);
          FirstVariantIsListed(o2, lang);
        }
      } else {
        var j, k :| j in msgs && k in msgs && SameLanguage(j, lang) && SameLanguage(k, lang) && msgs[j] != msgs[k];
        var o1 := OrderFrom(j, msgs.Keys);
        var o2 := OrderFrom(k, msgs.Keys);
        assert FirstVariant(o1, lang) == Some(j) && FirstVariant(o2, lang) == Some(k);
        assert !SameAnswer(msgs, public, locale, fallback, o1, o2);
      }
    }
  }
}
