/** The token's marketing data: which logos are accepted, who may change what is shown, and that the
    shown logo is the stored one. */
module Cw20Marketing {
  import opened Prelude
  import opened Chain
  import opened Cw20Ledger
  import opened Cw20Accounting
  import opened Cw20Start

  /* ---- which logos are accepted ---- */

  /** The data opens an XML declaration, and its first `>` comes right after a `?`, at `n`. */
  ghost predicate PreambleEndsAt(data: seq<Byte>, n: nat) {
    && 6 <= n < |data| - 1 && data[..6] == XML_PREFIX
    && data[n] == 0x3F && data[n + 1] == 0x3E && forall k :: 0 <= k <= n ==> data[k] != 0x3E
  }

  lemma {:induction false} FirstChunkMeaning(data: seq<Byte>, end: Byte)
    ensures var chunk := FirstChunk(data, end);
            && chunk <= data && (forall k :: 0 <= k < |chunk| - 1 ==> chunk[k] != end)
            && ((chunk == data && end !in data) || (chunk != [] && chunk[|chunk| - 1] == end))
  {
    if data != [] && data[0] != end {
      FirstChunkMeaning(data[1..], end);
      assert data == [data[0]] + data[1..];
    }
  }

  lemma {:induction false} AcceptedPreamble(data: seq<Byte>)
    requires VerifyXmlPreamble(data).Ok?
    ensures PreambleEndsAt(data, |FirstChunk(data, 0x3E)| - 2)
  {
    var chunk := FirstChunk(data, 0x3E);
    FirstChunkMeaning(data, 0x3E);
    assert chunk[|chunk| - 2..][0] == 0x3F && chunk[|chunk| - 2..][1] == 0x3E;
    assert forall k :: 0 <= k < 6 ==> chunk[k] == XML_PREFIX[k] != 0x3E;
    assert data[..6] == chunk[..6] == XML_PREFIX;
    assert chunk[5] == 0x20 && chunk[4] == 0x6C;
  }

  lemma {:induction false} PreambleIsAccepted(data: seq<Byte>, n: nat)
    requires PreambleEndsAt(data, n)
    ensures VerifyXmlPreamble(data).Ok?
  {
    var chunk := FirstChunk(data, 0x3E);
    FirstChunkMeaning(data, 0x3E);
    assert data[n + 1] in data && |chunk| == n + 2;
    assert chunk[..6] == data[..6] && chunk[n..] == [data[n], data[n + 1]];
  }

  /** Any link, a PNG with its header, and an SVG that starts with a complete XML declaration, both
      of at most 5 KB. */
  lemma {:induction false} LogoAccepted(logo: Logo)
    ensures VerifyLogo(logo).Ok? <==>
              match logo
              case Url(_) => true
              case Svg(data) => |data| <= 5120 && exists n: nat :: PreambleEndsAt(data, n)
              case Png(data) =>
                8 <= |data| <= 5120 && data[..8] == [0x89, 0x50, 0x4E, 0x47, 0x0D, 0x0A, 0x1A, 0x0A]
    ensures VerifyLogo(logo).Err? ==>
              VerifyLogo(logo).error ==
              if logo.Svg? && !(exists n: nat :: PreambleEndsAt(logo.data, n)) then InvalidXmlPreamble
              else if logo.Svg? || |logo.data| > 5120 then LogoTooBig
              else InvalidPngHeader
  {
    if logo.Svg? {
      if VerifyXmlPreamble(logo.data).Ok? { AcceptedPreamble(logo.data); }
      if n: nat :| PreambleEndsAt(logo.data, n) { PreambleIsAccepted(logo.data, n); }
    }
    if logo.Png? { assert PNG_HEADER <= logo.data <==> 8 <= |logo.data| && logo.data[..8] == PNG_HEADER; }
  }

  /* ---- what is shown and what is stored ---- */

  function ShownLogo(l: Ledger): Option<LogoInfo> {
    if l.marketing.None? then None else l.marketing.value.logo
  }

  /** The `download_logo` query: a media type and the data. */
  function DownloadLogo(l: Ledger): Result<(string, seq<Byte>), StdError> {
    match l.logo
    case None => Err(NotFound)
    case Some(Svg(data)) => Ok(("image/svg+xml", data))
    case Some(Png(data)) => Ok(("image/png", data))
    case Some(Url(_)) => Err(NotFound)
  }

  /** The logo shown is the one stored, and that one was verified. */
  ghost predicate Coherent(l: Ledger) {
    && (l.logo.Some? ==> VerifyLogo(l.logo.value).Ok?)
    && ShownLogo(l) == if l.logo.Some? then Some(InfoOf(l.logo.value)) else None
  }

  function Project(l: Ledger): Option<string> {
    if l.marketing.None? then None else l.marketing.value.project
  }

  function Description(l: Ledger): Option<string> {
    if l.marketing.None? then None else l.marketing.value.description
  }

  /** The 25 characters with the Unicode property White_Space. */
  ghost const WHITE_SPACE: string :=
    "\U{9}\U{A}\U{B}\U{C}\U{D}\U{20}\U{85}\U{A0}\U{1680}\U{2000}\U{2001}\U{2002}\U{2003}\U{2004}\U{2005}"
    + "\U{2006}\U{2007}\U{2008}\U{2009}\U{200A}\U{2028}\U{2029}\U{202F}\U{205F}\U{3000}"

  ghost predicate AllWhite(s: string) {
    forall c :: c in s ==> c in WHITE_SPACE
  }

  lemma {:induction false} WhiteSpace(c: char)
    ensures IsWhitespace(c) <==> c in WHITE_SPACE
  {
  }

  lemma {:induction false} BlankMeaning(s: string)
    ensures Blank(s) <==> AllWhite(s)
  {
    forall c: char ensures IsWhitespace(c) <==> c in WHITE_SPACE { WhiteSpace(c); }
    if AllWhite(s) {
      forall i | 0 <= i < |s| ensures IsWhitespace(s[i]) { assert s[i] in s; }
    }
  }

  /** An absent text keeps what was there, a blank one clears it, any other replaces it. */
  ghost predicate TextAfter(asked: Option<string>, before: Option<string>, after: Option<string>) {
    match asked
    case None => after == before
    case Some(text) => after == if AllWhite(text) then None else Some(text)
  }

  /** What the two messages leave: the texts as asked with the logo untouched, the data gone once
      nothing is left in it; or the new logo with the texts untouched. */
  lemma {:induction false} MarketingContents(api: AddrCheck, l: Ledger, e: Event)
    requires Apply(api, l, e).Ok?
    ensures var after := Next(api, l, e);
            match e.msg
            case UpdateMarketing(project, description, marketing) =>
              && TextAfter(project, Project(l), Project(after))
              && TextAfter(description, Description(l), Description(after))
              && TextAfter(marketing, Marketer(l), Marketer(after))
              && after.logo == l.logo && ShownLogo(after) == ShownLogo(l)
              && (after.marketing.None? <==> Project(after).None? && Description(after).None?
                                             && Marketer(after).None? && ShownLogo(after).None?)
            case UploadLogo(logo) =>
              && after.logo == Some(logo) && ShownLogo(after) == Some(InfoOf(logo))
              && Project(after) == Project(l) && Description(after) == Description(l)
              && Marketer(after) == Marketer(l)
            case _ => after.marketing == l.marketing && after.logo == l.logo
  {
    forall s ensures Blank(s) <==> AllWhite(s) { BlankMeaning(s); }
    if !e.msg.UpdateMarketing? && !e.msg.UploadLogo? { OtherMessagesKeepMarketing(api, l, e); }
  }

  lemma {:induction false} MarketingMessage(api: AddrCheck, l: Ledger, e: Event)
    requires e.msg.UpdateMarketing? || e.msg.UploadLogo?
    requires Apply(api, l, e).Ok?
    ensures var after := Next(api, l, e);
            && Marketer(l) == Some(e.ctx.sender)
            && after == l.(marketing := after.marketing, logo := after.logo)
            && (Coherent(l) ==> Coherent(after))
            && (Marketer(after) == Marketer(l)
                || (e.msg.UpdateMarketing? && Marketer(after).None?)
                || (e.msg.UpdateMarketing? && Marketer(after) == e.msg.marketing && api(e.msg.marketing.value)))
  {
  }

  lemma {:induction false} OtherMessagesKeepMarketing(api: AddrCheck, l: Ledger, e: Event)
    requires !e.msg.UpdateMarketing? && !e.msg.UploadLogo?
    ensures Next(api, l, e).marketing == l.marketing && Next(api, l, e).logo == l.logo
  {
    if Apply(api, l, e).Ok? { StepFrame(api, l, e); }
  }

  /** Only the marketing account changes the data, by the two messages for it, which touch nothing
      else; it hands over to a valid address or to nobody; shown and stored logo stay the same. */
  lemma {:induction false} StepMarketing(api: AddrCheck, l: Ledger, e: Event)
    ensures var after := Next(api, l, e);
            var marketing := e.msg.UpdateMarketing? || e.msg.UploadLogo?;
            && (marketing ==> after == l.(marketing := after.marketing, logo := after.logo))
            && (after.marketing != l.marketing || after.logo != l.logo ==>
                  marketing && Marketer(l) == Some(e.ctx.sender))
            && (Marketer(after) != Marketer(l) ==>
                  && e.msg.UpdateMarketing?
                  && (Marketer(after).Some? ==>
                        Marketer(after) == e.msg.marketing && api(Marketer(after).value)))
            && (Coherent(l) ==> Coherent(after))
  {
    if e.msg.UpdateMarketing? || e.msg.UploadLogo? {
      if Apply(api, l, e).Ok? { MarketingMessage(api, l, e); }
    } else {
      OtherMessagesKeepMarketing(api, l, e);
    }
  }

  /** The i-th message of the run is one for marketing data, sent by the marketing account of its time. */
  ghost predicate MarketerActs(api: AddrCheck, l: Ledger, es: seq<Event>, i: nat) {
    && i < |es| && (es[i].msg.UpdateMarketing? || es[i].msg.UploadLogo?)
    && Marketer(Run(api, l, es[..i])) == Some(es[i].ctx.sender)
  }

  /** Over any run the data changes only if the marketing account of some moment acts, so without
      one it is final. */
  lemma {:induction false} RunMarketing(api: AddrCheck, l: Ledger, es: seq<Event>)
    ensures var after := Run(api, l, es);
            && (Coherent(l) ==> Coherent(after))
            && (after.marketing != l.marketing || after.logo != l.logo ==>
                  exists i: nat :: MarketerActs(api, l, es, i))
            && (Marketer(l).None? ==> after.marketing == l.marketing && after.logo == l.logo)
    decreases |es|
  {
    if es != [] {
      var (next, rest) := (Next(api, l, es[0]), es[1..]);
      StepMarketing(api, l, es[0]);
      RunMarketing(api, next, rest);
      if next.marketing != l.marketing || next.logo != l.logo {
        assert es[..0] == [];
        assert MarketerActs(api, l, es, 0);
      }
      if i: nat :| MarketerActs(api, next, rest, i) {
        assert es[..i + 1][1..] == rest[..i];
        assert MarketerActs(api, l, es, i + 1);
      }
    }
  }

  /** In every reachable state an embedded logo is shown exactly when one can be downloaded, and a
      shown link is the stored one. */
  lemma {:induction false} ReachableMarketing(api: AddrCheck, data: InstantiateData, es: seq<Event>)
    requires Instantiate(api, EMPTY, data).Ok?
    ensures var l := Run(api, Instantiate(api, EMPTY, data).value, es);
            && (ShownLogo(l) == Some(Embedded) <==> DownloadLogo(l).Ok?)
            && (DownloadLogo(l).Ok? ==> 0 < |DownloadLogo(l).value.1| <= 5120)
            && (forall url :: ShownLogo(l) == Some(UrlInfo(url)) <==> l.logo == Some(Url(url)))
            && (data.marketing.None? || data.marketing.value.marketing.None? ==>
                  l.marketing == Instantiate(api, EMPTY, data).value.marketing)
  {
    var start := Instantiate(api, EMPTY, data).value;
    var l := Run(api, start, es);
    InstantiateStarts(api, data);
    RunMarketing(api, start, es);
    if l.logo.Some? { LogoAccepted(l.logo.value); }
  }
}
