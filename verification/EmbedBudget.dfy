/** The budget of embeds per message: at most ten, at most 6000 characters, threaded from
    the validation of custom embeds through the crawl to the links of the message. */
module EmbedBudget {
  import opened Wrappers

  type Id = nat

  const MAX_EMBEDS_PER_MESSAGE: nat := 10
  const TITLE_MAX: nat := 256
  const DESCRIPTION_MAX: nat := 4192
  const FIELDS_MAX: nat := 25
  const FIELD_NAME_MAX: nat := 256
  const FIELD_VALUE_MAX: nat := 1024
  const AUTHOR_NAME_MAX: nat := 256
  const SITE_NAME_MAX: nat := 256
  const FOOTER_TEXT_MAX: nat := 2048
  const TOTAL_TEXT_MAX: nat := 6000

  datatype FieldInput = FieldInput(name: string, value: string, shown: bool)

  /** `linked`: a usable URL or icon comes with the name. */
  datatype AuthorInput = AuthorInput(name: string, linked: bool)

  /** `urlsOk` stands for the checks of colour, URLs and media, which do not involve the
      text that is counted. */
  datatype EmbedInput = EmbedInput(
    title: string,
    description: string,
    siteName: string,
    author: Option<AuthorInput>,
    footer: Option<string>,
    fields: seq<FieldInput>,
    urlsOk: bool)

  datatype Field = Field(position: nat, name: string, value: string, shown: bool)

  datatype Author = Author(name: Option<string>)

  datatype Footer = Footer(text: Option<string>)

  datatype Embed = Embed(
    id: Id,
    title: Option<string>,
    description: Option<string>,
    siteName: Option<string>,
    author: Option<Author>,
    footer: Option<Footer>,
    fields: seq<Field>)

  datatype Invalid = TooManyEmbeds | InvalidEmbed(index: nat) | TotalTooLong

  // --------------------------------------------------------------- text lengths

  function InputFieldsText(fields: seq<FieldInput>): nat {
    if fields == [] then 0
    else InputFieldsText(fields[..|fields| - 1]) + |fields[|fields| - 1].name| + |fields[|fields| - 1].value|
  }

  function InputText(e: EmbedInput): nat {
    |e.title| + |e.description|
    + (if e.author.Some? then |e.author.value.name| else 0)
    + (if e.footer.Some? then |e.footer.value| else 0)
    + InputFieldsText(e.fields)
  }

  function InputTexts(inputs: seq<EmbedInput>): nat {
    if inputs == [] then 0 else InputTexts(inputs[..|inputs| - 1]) + InputText(inputs[|inputs| - 1])
  }

  function TextLen(s: Option<string>): nat {
    if s.None? then 0 else |s.value|
  }

  function FieldsText(fields: seq<Field>): nat {
    if fields == [] then 0
    else FieldsText(fields[..|fields| - 1]) + |fields[|fields| - 1].name| + |fields[|fields| - 1].value|
  }

  function EmbedText(e: Embed): nat {
    TextLen(e.title) + TextLen(e.description)
    + (if e.author.Some? then TextLen(e.author.value.name) else 0)
    + (if e.footer.Some? then TextLen(e.footer.value.text) else 0)
    + FieldsText(e.fields)
  }

  function EmbedTexts(embeds: seq<Embed>): nat {
    if embeds == [] then 0 else EmbedTexts(embeds[..|embeds| - 1]) + EmbedText(embeds[|embeds| - 1])
  }

  /** Which texts of an input count, each with its own length: not the name of the site. */
  lemma CountedInput(e: EmbedInput, text: string, linked: bool, field: FieldInput)
    ensures InputText(EmbedInput("", "", e.siteName, None, None, [], e.urlsOk)) == 0
    ensures InputText(e.(title := text)) == InputText(e.(title := "")) + |text|
    ensures InputText(e.(description := text)) == InputText(e.(description := "")) + |text|
    ensures InputText(e.(siteName := text)) == InputText(e)
    ensures InputText(e.(author := Some(AuthorInput(text, linked)))) == InputText(e.(author := None)) + |text|
    ensures InputText(e.(footer := Some(text))) == InputText(e.(footer := None)) + |text|
    ensures InputText(e.(fields := e.fields + [field])) == InputText(e) + |field.name| + |field.value|
  {
    assert (e.fields + [field])[..|e.fields|] == e.fields;
  }

  /** The same texts count of a stored embed. */
  lemma CountedStored(e: Embed, text: string, field: Field)
    ensures EmbedText(Embed(e.id, None, None, e.siteName, None, None, [])) == 0
    ensures EmbedText(e.(title := Some(text))) == EmbedText(e.(title := None)) + |text|
    ensures EmbedText(e.(description := Some(text))) == EmbedText(e.(description := None)) + |text|
    ensures EmbedText(e.(siteName := Some(text))) == EmbedText(e)
    ensures EmbedText(e.(author := Some(Author(Some(text))))) == EmbedText(e.(author := None)) + |text|
    ensures EmbedText(e.(footer := Some(Footer(Some(text))))) == EmbedText(e.(footer := None)) + |text|
    ensures EmbedText(e.(fields := e.fields + [field])) == EmbedText(e) + |field.name| + |field.value|
  {
    assert (e.fields + [field])[..|e.fields|] == e.fields;
  }

  method EmbedInputTextLength(e: EmbedInput) returns (total: nat)
    ensures total == InputText(e)
  {
    total := |e.title| + |e.description|;
    if e.author.Some? {
      total := total + |e.author.value.name|;
    }
    if e.footer.Some? {
      total := total + |e.footer.value|;
    }
    ghost var before := total;
    for n := 0 to |e.fields|
      invariant total == before + InputFieldsText(e.fields[..n])
    {
      assert e.fields[..n + 1][..n] == e.fields[..n];
      total := total + |e.fields[n].name| + |e.fields[n].value|;
    }
    assert e.fields[..|e.fields|] == e.fields;
  }

  method EmbedTextLength(e: Embed) returns (total: nat)
    ensures total == EmbedText(e)
  {
    total := TextLen(e.title) + TextLen(e.description);
    if e.author.Some? {
      total := total + TextLen(e.author.value.name);
    }
    if e.footer.Some? {
      total := total + TextLen(e.footer.value.text);
    }
    ghost var before := total;
    for n := 0 to |e.fields|
      invariant total == before + FieldsText(e.fields[..n])
    {
      assert e.fields[..n + 1][..n] == e.fields[..n];
      total := total + |e.fields[n].name| + |e.fields[n].value|;
    }
    assert e.fields[..|e.fields|] == e.fields;
  }

  // ------------------------------------------------------------------ validation

  /** No counted text is longer than its own limit. */
  predicate TextFits(e: EmbedInput) {
    && |e.title| <= TITLE_MAX && |e.description| <= DESCRIPTION_MAX
    && (e.author.Some? ==> |e.author.value.name| <= AUTHOR_NAME_MAX)
    && (e.footer.Some? ==> |e.footer.value| <= FOOTER_TEXT_MAX)
    && forall k :: 0 <= k < |e.fields| ==>
         |e.fields[k].name| <= FIELD_NAME_MAX && |e.fields[k].value| <= FIELD_VALUE_MAX
  }

  predicate ValidEmbed(e: EmbedInput) {
    TextFits(e) && |e.siteName| <= SITE_NAME_MAX && |e.fields| <= FIELDS_MAX && e.urlsOk
  }

  predicate ValidEmbeds(inputs: seq<EmbedInput>) {
    && |inputs| <= MAX_EMBEDS_PER_MESSAGE
    && (forall k :: 0 <= k < |inputs| ==> ValidEmbed(inputs[k]))
    && InputTexts(inputs) <= TOTAL_TEXT_MAX
  }

  method ValidateCustomEmbed(e: EmbedInput) returns (ok: bool)
    ensures ok <==> ValidEmbed(e)
    ensures ok <==>
              && |e.title| <= 256 && |e.description| <= 4192 && |e.siteName| <= 256 && |e.fields| <= 25 && e.urlsOk
              && (e.author.Some? ==> |e.author.value.name| <= 256)
              && (e.footer.Some? ==> |e.footer.value| <= 2048)
              && forall k :: 0 <= k < |e.fields| ==> |e.fields[k].name| <= 256 && |e.fields[k].value| <= 1024
  {
    if |e.title| > TITLE_MAX || |e.description| > DESCRIPTION_MAX || |e.siteName| > SITE_NAME_MAX || !e.urlsOk {
      return false;
    }
    if e.author.Some? && |e.author.value.name| > AUTHOR_NAME_MAX {
      return false;
    }
    if e.footer.Some? && |e.footer.value| > FOOTER_TEXT_MAX {
      return false;
    }
    if |e.fields| > FIELDS_MAX {
      return false;
    }
    for n := 0 to |e.fields|
      invariant forall k :: 0 <= k < n ==>
                  |e.fields[k].name| <= FIELD_NAME_MAX && |e.fields[k].value| <= FIELD_VALUE_MAX
    {
      if |e.fields[n].name| > FIELD_NAME_MAX || |e.fields[n].value| > FIELD_VALUE_MAX {
        return false;
      }
    }
    return true;
  }

  method ValidateCustomEmbeds(inputs: seq<EmbedInput>) returns (r: Result<(), Invalid>)
    ensures r.Ok? <==> ValidEmbeds(inputs)
    ensures r.Ok? <==>
              |inputs| <= 10 && InputTexts(inputs) <= 6000 && forall k :: 0 <= k < |inputs| ==> ValidEmbed(inputs[k])
    ensures r == Err(TooManyEmbeds) <==> |inputs| > 10
    ensures r.Err? && r.error.InvalidEmbed? ==>
              && r.error.index < |inputs| && !ValidEmbed(inputs[r.error.index])
              && forall k :: 0 <= k < r.error.index ==> ValidEmbed(inputs[k])
  {
    hide ValidEmbed, InputText;
    if |inputs| == 0 {
      return Ok(());
    }
    if |inputs| > MAX_EMBEDS_PER_MESSAGE {
      return Err(TooManyEmbeds);
    }
    var total := 0;
    for n := 0 to |inputs|
      invariant forall k :: 0 <= k < n ==> ValidEmbed(inputs[k])
      invariant total == InputTexts(inputs[..n])
    {
      assert inputs[..n + 1][..n] == inputs[..n];
      var ok := ValidateCustomEmbed(inputs[n]);
      if !ok {
        return Err(InvalidEmbed(n));
      }
      var text := EmbedInputTextLength(inputs[n]);
      total := total + text;
    }
    assert inputs[..|inputs|] == inputs;
    if total > TOTAL_TEXT_MAX {
      return Err(TotalTooLong);
    }
    return Ok(());
  }

  // -------------------------------------------------------------------- building

  function TruncateRune(s: string, n: nat): string {
    if n == 0 || |s| <= n then s else s[..n]
  }

  function NullableText(s: string): Option<string> {
    if s == "" then None else Some(s)
  }

  /** What is stored of a text: its beginning up to a limit, and nothing of an empty one. */
  predicate Cut(stored: Option<string>, sent: string, limit: nat) {
    if sent == "" then stored.None? else stored.Some? && CutText(stored.value, sent, limit)
  }

  predicate CutText(stored: string, sent: string, limit: nat) {
    stored <= sent && |stored| == if |sent| <= limit then |sent| else limit
  }

  predicate CutField(stored: Field, sent: FieldInput, position: nat) {
    && stored.position == position && stored.shown == sent.shown
    && CutText(stored.name, sent.name, 256) && CutText(stored.value, sent.value, 1024)
  }

  /** Each text is the beginning of its own text, cut at its own limit. */
  predicate IsCut(embed: Embed, e: EmbedInput) {
    && Cut(embed.title, e.title, 256)
    && Cut(embed.description, e.description, 4192)
    && Cut(embed.siteName, e.siteName, 256)
    && (embed.author.Some? <==> e.author.Some? && (e.author.value.name != "" || e.author.value.linked))
    && (embed.author.Some? ==> Cut(embed.author.value.name, e.author.value.name, 256))
    && (embed.footer.Some? <==> e.footer.Some? && e.footer.value != "")
    && (embed.footer.Some? ==> Cut(embed.footer.value.text, e.footer.value, 2048))
    && |embed.fields| == |e.fields|
    && forall k :: 0 <= k < |e.fields| ==> CutField(embed.fields[k], e.fields[k], k)
  }

  function BuiltField(field: FieldInput, position: nat): Field {
    Field(position, TruncateRune(field.name, FIELD_NAME_MAX), TruncateRune(field.value, FIELD_VALUE_MAX), field.shown)
  }

  function BuiltFields(fields: seq<FieldInput>): (built: seq<Field>)
    ensures |built| == |fields|
  {
    if fields == [] then []
    else
      var n := |fields| - 1;
      BuiltFields(fields[..n]) + [BuiltField(fields[n], n)]
  }

  function BuiltAuthor(author: Option<AuthorInput>): Option<Author> {
    if author.None? then None
    else
      var name := NullableText(TruncateRune(author.value.name, AUTHOR_NAME_MAX));
      if name.Some? || author.value.linked then Some(Author(name)) else None
  }

  function Built(e: EmbedInput, id: Id): Embed {
    Embed(
      id,
      NullableText(TruncateRune(e.title, TITLE_MAX)),
      NullableText(TruncateRune(e.description, DESCRIPTION_MAX)),
      NullableText(TruncateRune(e.siteName, SITE_NAME_MAX)),
      BuiltAuthor(e.author),
      if e.footer.Some? && e.footer.value != ""
      then Some(Footer(NullableText(TruncateRune(e.footer.value, FOOTER_TEXT_MAX)))) else None,
      BuiltFields(e.fields))
  }

  lemma {:induction false} FieldsAreCut(fields: seq<FieldInput>)
    ensures forall k :: 0 <= k < |fields| ==> CutField(BuiltFields(fields)[k], fields[k], k)
    decreases |fields|
  {
    if fields != [] {
      var n := |fields| - 1;
      FieldsAreCut(fields[..n]);
      hide CutField;
      assert CutField(BuiltField(fields[n], n), fields[n], n) by { OneFieldIsCut(fields[n], n); }
    }
  }

  lemma OneFieldIsCut(field: FieldInput, position: nat)
    ensures CutField(BuiltField(field, position), field, position)
  {
  }

  lemma BuiltIsCut(e: EmbedInput, id: Id)
    ensures IsCut(Built(e, id), e) && Built(e, id).id == id
  {
    FieldsAreCut(e.fields);
    hide BuiltFields, CutField;
  }

  method BuildCustomEmbed(e: EmbedInput, id: Id) returns (embed: Embed)
    ensures embed == Built(e, id)
    ensures IsCut(embed, e) && embed.id == id
  {
    var author, footer := None, None;
    if e.author.Some? {
      var name := NullableText(TruncateRune(e.author.value.name, AUTHOR_NAME_MAX));
      if name.Some? || e.author.value.linked {
        author := Some(Author(name));
      }
    }
    if e.footer.Some? && e.footer.value != "" {
      footer := Some(Footer(NullableText(TruncateRune(e.footer.value, FOOTER_TEXT_MAX))));
    }
    var fields: seq<Field> := [];
    for n := 0 to |e.fields|
      invariant fields == BuiltFields(e.fields[..n])
    {
      assert e.fields[..n + 1][..n] == e.fields[..n];
      var field := e.fields[n];
      var name, value := TruncateRune(field.name, FIELD_NAME_MAX), TruncateRune(field.value, FIELD_VALUE_MAX);
      fields := fields + [Field(|fields|, name, value, field.shown)];
    }
    assert e.fields[..|e.fields|] == e.fields;
    embed := Embed(
      id,
      NullableText(TruncateRune(e.title, TITLE_MAX)),
      NullableText(TruncateRune(e.description, DESCRIPTION_MAX)),
      NullableText(TruncateRune(e.siteName, SITE_NAME_MAX)),
      author, footer, fields);
    BuiltIsCut(e, id);
  }

  /** A text of a stored embed is the very text of the input, and missing when that is
      empty. */
  predicate AsSent(stored: Option<string>, sent: string) {
    stored == if sent == "" then None else Some(sent)
  }

  /** Nothing of the input is lost, moved or changed. */
  predicate StoredAsSent(stored: Embed, e: EmbedInput) {
    && AsSent(stored.title, e.title) && AsSent(stored.description, e.description)
    && AsSent(stored.siteName, e.siteName)
    && (stored.author.Some? <==> e.author.Some? && (e.author.value.name != "" || e.author.value.linked))
    && (stored.author.Some? ==> AsSent(stored.author.value.name, e.author.value.name))
    && (stored.footer.Some? <==> e.footer.Some? && e.footer.value != "")
    && (stored.footer.Some? ==> stored.footer.value.text == Some(e.footer.value))
    && |stored.fields| == |e.fields|
    && forall k :: 0 <= k < |e.fields| ==>
         stored.fields[k] == Field(k, e.fields[k].name, e.fields[k].value, e.fields[k].shown)
  }

  lemma {:induction false} FieldsAsSent(fields: seq<FieldInput>)
    requires FieldsFit(fields)
    ensures forall k :: 0 <= k < |fields| ==>
              BuiltFields(fields)[k] == Field(k, fields[k].name, fields[k].value, fields[k].shown)
    decreases |fields|
  {
    if fields != [] {
      FieldsAsSent(fields[..|fields| - 1]);
    }
  }

  /** Validation lets nothing through that building would cut. */
  lemma ValidIsStoredAsSent(e: EmbedInput, id: Id)
    requires ValidEmbed(e)
    ensures StoredAsSent(Built(e, id), e) && Built(e, id).id == id
  {
    FieldsAsSent(e.fields);
    hide BuiltFields;
  }

  predicate FieldsFit(fields: seq<FieldInput>) {
    forall k :: 0 <= k < |fields| ==> |fields[k].name| <= FIELD_NAME_MAX && |fields[k].value| <= FIELD_VALUE_MAX
  }

  lemma {:induction false} FieldsKeepText(fields: seq<FieldInput>)
    ensures FieldsText(BuiltFields(fields)) <= InputFieldsText(fields)
    ensures FieldsText(BuiltFields(fields)) == InputFieldsText(fields) <==> FieldsFit(fields)
    decreases |fields|
  {
    if fields != [] {
      var n := |fields| - 1;
      FieldsKeepText(fields[..n]);
      var built := BuiltFields(fields);
      assert built[..n] == BuiltFields(fields[..n]);
      assert FieldsFit(fields) <==> (FieldsFit(fields[..n]) &&
        |fields[n].name| <= FIELD_NAME_MAX && |fields[n].value| <= FIELD_VALUE_MAX);
    }
  }

  /** Building keeps the length of the counted text exactly when every counted text is
      within its own limit, and never increases it. Every embed that passes validation is
      such. */
  lemma BuildKeepsText(e: EmbedInput, id: Id)
    ensures EmbedText(Built(e, id)) <= InputText(e)
    ensures EmbedText(Built(e, id)) == InputText(e) <==> TextFits(e)
    ensures ValidEmbed(e) ==> EmbedText(Built(e, id)) == InputText(e)
  {
    FieldsKeepText(e.fields);
    hide BuiltFields;
    assert TextFits(e) <==>
           |e.title| <= TITLE_MAX && |e.description| <= DESCRIPTION_MAX &&
           (e.author.Some? ==> |e.author.value.name| <= AUTHOR_NAME_MAX) &&
           (e.footer.Some? ==> |e.footer.value| <= FOOTER_TEXT_MAX) && FieldsFit(e.fields);
  }
}
