/** A run of the message services that breaks the limits. */
module EmbedScenario {
  import opened EmbedBudget
  import opened EmbedLateWork
  import opened EmbedLinks
  import opened Wrappers

  /** A creation whose crawl ends after an edit filled the message with custom embeds: each
      call respects its own budget, and the message has eleven embeds. */
  method LateWorkBreaksLimits() returns (m: Message)
    ensures |m.customs| == 10 && |m.links| == 1 && !Within(m.customs, m.links)
  {
    hide EmbedTexts, Built, Kept, Firsts, Cleaned;
    m := new Message([]);
    var plain := EmbedInput("a", "", "", None, None, [], true);
    var edited := CreateCustomEmbeds(seq(10, i => plain), 0);
    TenPlainEmbeds(plain);
    m.ReplaceCustomEmbeds(edited.value);
    var found := [Titled(100, 1)];
    OneTitled(100, 1);
    NoEmbedsNoText();
    FoundByCrawl([], found);
    var embeds := m.ProcessMessageEmbeds([], NthUrls(1), MAX_EMBEDS_PER_MESSAGE, FetchOf(found));
    assert embeds == found;
    assert map[] + AsLinks(found) == map[100 := found[0]];
  }

  lemma {:induction false} RepeatedText(plain: EmbedInput, n: nat)
    ensures InputTexts(seq(n, i => plain)) == n * InputText(plain)
  {
    if n > 0 {
      RepeatedText(plain, n - 1);
      assert seq(n, i => plain)[..n - 1] == seq(n - 1, i => plain);
    }
  }

  lemma TenPlainEmbeds(plain: EmbedInput)
    requires ValidEmbed(plain) && InputText(plain) <= 600
    ensures ValidEmbeds(seq(10, i => plain))
  {
    hide ValidEmbed, InputText, InputTexts;
    RepeatedText(plain, 10);
  }
}
