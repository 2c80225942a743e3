/** The GDPR API address: Python's `string.Template.safe_substitute` over the
    configured URL template, and `get_gdpr_url`'s fallback when nothing changed. */
module UrlTemplate {
  import opened Config

  // ---- Identifiers: the placeholder pattern [_A-Za-z][_A-Za-z0-9]* ----

  predicate IsIdentStart(c: char) {
    c == '_' || 'a' <= c <= 'z' || 'A' <= c <= 'Z'
  }

  predicate IsIdentChar(c: char) {
    IsIdentStart(c) || '0' <= c <= '9'
  }

  predicate IsIdentifier(s: string) {
    |s| > 0 && IsIdentStart(s[0]) && forall i :: 0 <= i < |s| ==> IsIdentChar(s[i])
  }

  /** The number of leading identifier characters of `s`. */
  function IdentCharsLen(s: string): (n: nat)
    ensures n <= |s|
    ensures forall i :: 0 <= i < n ==> IsIdentChar(s[i])
    ensures n < |s| ==> !IsIdentChar(s[n])
  {
    if |s| == 0 || !IsIdentChar(s[0]) then 0 else 1 + IdentCharsLen(s[1..])
  }

  /** The length of the longest identifier at the start of `s` (the regular
      expression's greedy match), 0 when there is none. */
  function IdentifierLen(s: string): (n: nat)
    ensures n <= |s|
    ensures n > 0 ==> IsIdentifier(s[..n])
    ensures n > 0 && n < |s| ==> !IsIdentChar(s[n])
    ensures n == 0 <==> |s| == 0 || !IsIdentStart(s[0])
  {
    if |s| == 0 || !IsIdentStart(s[0]) then 0 else IdentCharsLen(s)
  }

  // ---- The template read as tokens ----

  /** A piece of the template: a plain character, `$$`, `$name`, `${name}`, or a
      `$` that starts none of these. */
  datatype Piece = Literal(c: char) | Escape | Named(id: string) | Braced(id: string) | Stray

  /** The template text a piece was read from. */
  function Spelling(p: Piece): string {
    match p
    case Literal(c) => [c]
    case Escape => "$$"
    case Named(id) => "$" + id
    case Braced(id) => "${" + id + "}"
    case Stray => "$"
  }

  function SpellAll(ps: seq<Piece>): string {
    if |ps| == 0 then "" else Spelling(ps[0]) + SpellAll(ps[1..])
  }

  predicate WellFormedPiece(p: Piece) {
    match p
    case Literal(c) => c != '$'
    case Named(id) => IsIdentifier(id)
    case Braced(id) => IsIdentifier(id)
    case _ => true
  }

  /** One match of the template pattern at the start of `t`, and its length: at
      a `$` the escape is tried first, then a bare name (longest match), then a
      braced name; anything else leaves the `$` as a stray delimiter. */
  function NextPiece(t: string): (r: (Piece, nat))
    requires |t| > 0
    ensures 0 < r.1 <= |t|
    ensures Spelling(r.0) == t[..r.1]
    ensures WellFormedPiece(r.0)
  {
    if t[0] != '$' then
      (Literal(t[0]), 1)
    else if |t| >= 2 && t[1] == '$' then
      (Escape, 2)
    else
      var n := IdentifierLen(t[1..]);
      if n > 0 then
        assert t[..1 + n] == "$" + t[1..][..n];
        (Named(t[1..][..n]), 1 + n)
      else if |t| >= 2 && t[1] == '{' && ClosedBraced(t[2..]) then
        var m := IdentifierLen(t[2..]);
        assert t[..3 + m] == "${" + t[2..][..m] + "}";
        (Braced(t[2..][..m]), 3 + m)
      else
        (Stray, 1)
  }

  /** The template as the sequence of pieces the pattern matches, left to right. */
  function Scan(t: string): (ps: seq<Piece>)
    ensures SpellAll(ps) == t
    ensures forall i :: 0 <= i < |ps| ==> WellFormedPiece(ps[i])
    decreases |t|
  {
    if |t| == 0 then []
    else
      var (p, n) := NextPiece(t);
      assert t == t[..n] + t[n..];
      [p] + Scan(t[n..])
  }

  /** `s` starts with an identifier followed by `}`. */
  predicate ClosedBraced(s: string) {
    var m := IdentifierLen(s);
    m > 0 && m < |s| && s[m] == '}'
  }

  // ---- Substitution ----

  /** A piece after `safe_substitute`: a known name becomes its value, `$$`
      becomes `$`, and everything else stays as written. */
  function Render(p: Piece, mapping: map<string, string>): (r: string)
    ensures p.Escape? ==> r == "$"
    ensures (p.Named? || p.Braced?) && p.id in mapping ==> r == mapping[p.id]
    ensures NothingToReplace(p, mapping) ==> r == Spelling(p)
  {
    match p
    case Escape => "$"
    case Named(id) => if id in mapping then mapping[id] else Spelling(p)
    case Braced(id) => if id in mapping then mapping[id] else Spelling(p)
    case _ => Spelling(p)
  }

  /** The pieces rendered in order; pieces with nothing to replace render as written. */
  function RenderAll(ps: seq<Piece>, mapping: map<string, string>): (r: string)
    ensures (forall i :: 0 <= i < |ps| ==> NothingToReplace(ps[i], mapping)) ==> r == SpellAll(ps)
  {
    if |ps| == 0 then ""
    else
      var rest := RenderAll(ps[1..], mapping);
      assert (forall i :: 0 <= i < |ps| ==> NothingToReplace(ps[i], mapping)) ==>
             (forall i :: 0 <= i < |ps[1..]| ==> NothingToReplace(ps[1..][i], mapping)) by {
        forall i | 0 <= i < |ps[1..]| ensures ps[1..][i] == ps[i + 1] { }
      }
      Render(ps[0], mapping) + rest
  }

  /** `Template(t).safe_substitute(mapping)`: with no escape and no known name in
      the template, the template comes back unchanged. */
  function SafeSubstitute(t: string, mapping: map<string, string>): (r: string)
    ensures (forall i :: 0 <= i < |Scan(t)| ==> NothingToReplace(Scan(t)[i], mapping)) ==> r == t
  {
    RenderAll(Scan(t), mapping)
  }

  /** The mapping `get_gdpr_url` substitutes. */
  function UrlMapping(cfg: AppConfig): (m: map<string, string>)
    ensures m.Keys == {"profile_id", "user_uuid"}
    ensures m["profile_id"] == cfg.profileId && m["user_uuid"] == cfg.userUuid
  {
    map["profile_id" := cfg.profileId, "user_uuid" := cfg.userUuid]
  }

  /** `get_gdpr_url()`; `urljoin` is Python's `urllib.parse.urljoin`, which the
      model takes as given. */
  function GdprUrl(cfg: AppConfig, urljoin: (string, string) -> string): (url: string)
    ensures SafeSubstitute(cfg.gdprApiUrl, UrlMapping(cfg)) != cfg.gdprApiUrl ==>
      url == SafeSubstitute(cfg.gdprApiUrl, UrlMapping(cfg))
    ensures url == cfg.gdprApiUrl ==> urljoin(cfg.gdprApiUrl, cfg.profileId) == cfg.gdprApiUrl
    ensures url != urljoin(cfg.gdprApiUrl, cfg.profileId) ==>
      url == SafeSubstitute(cfg.gdprApiUrl, UrlMapping(cfg)) && url != cfg.gdprApiUrl
  {
    var substituted := SafeSubstitute(cfg.gdprApiUrl, UrlMapping(cfg));
    if substituted == cfg.gdprApiUrl then urljoin(cfg.gdprApiUrl, cfg.profileId) else substituted
  }

  // ---- Facts about substitution ----

  /** A template text with no `$` reads as plain characters. */
  function Literals(p: string): (ps: seq<Piece>)
    ensures |ps| == |p| && forall i :: 0 <= i < |p| ==> ps[i] == Literal(p[i])
  {
    seq(|p|, i requires 0 <= i < |p| => Literal(p[i]))
  }

  lemma {:induction false} ScanPlainPrefix(p: string, q: string)
    requires '$' !in p
    ensures Scan(p + q) == Literals(p) + Scan(q)
  {
    if |p| > 0 {
      var t := p + q;
      assert t[0] == p[0] && t[0] != '$';
      assert t[1..] == p[1..] + q;
      assert Scan(t) == [Literal(p[0])] + Scan(t[1..]);
      ScanPlainPrefix(p[1..], q);
      assert Literals(p) == [Literal(p[0])] + Literals(p[1..]);
    } else {
      assert p + q == q;
    }
  }

  lemma {:induction false} RenderAllAppend(a: seq<Piece>, b: seq<Piece>, mapping: map<string, string>)
    ensures RenderAll(a + b, mapping) == RenderAll(a, mapping) + RenderAll(b, mapping)
  {
    if |a| == 0 {
      assert a + b == b;
    } else {
      assert (a + b)[1..] == a[1..] + b;
      RenderAllAppend(a[1..], b, mapping);
    }
  }

  lemma {:induction false} RenderLiterals(p: string, mapping: map<string, string>)
    ensures RenderAll(Literals(p), mapping) == p
  {
    if |p| > 0 {
      assert Literals(p)[1..] == Literals(p[1..]);
      RenderLiterals(p[1..], mapping);
    }
  }

  /** Text before the first `$` passes through substitution unchanged. */
  lemma SubstitutePlainPrefix(p: string, q: string, mapping: map<string, string>)
    requires '$' !in p
    ensures SafeSubstitute(p + q, mapping) == p + SafeSubstitute(q, mapping)
  {
    ScanPlainPrefix(p, q);
    RenderAllAppend(Literals(p), Scan(q), mapping);
    RenderLiterals(p, mapping);
  }

  /** A template without `$` is its own substitution. */
  lemma SubstituteWithoutDelimiter(t: string, mapping: map<string, string>)
    requires '$' !in t
    ensures SafeSubstitute(t, mapping) == t
  {
    SubstitutePlainPrefix(t, "", mapping);
    assert t + "" == t;
  }

  /** `${name}` becomes the name's value, or stays verbatim for an unknown name. */
  lemma SubstituteBraced(id: string, q: string, mapping: map<string, string>)
    requires IsIdentifier(id)
    ensures SafeSubstitute("${" + id + "}" + q, mapping)
      == (if id in mapping then mapping[id] else "${" + id + "}") + SafeSubstitute(q, mapping)
  {
    var t := "${" + id + "}" + q;
    NextPieceBraced(id, q);
    assert t[|id| + 3..] == q;
    RenderOne(t, mapping);
  }

  lemma NextPieceBraced(id: string, q: string)
    requires IsIdentifier(id)
    ensures NextPiece("${" + id + "}" + q) == (Braced(id), |id| + 3)
  {
    var t := "${" + id + "}" + q;
    assert t[0] == '$' && t[1] == '{';
    assert t[2..] == id + ("}" + q);
    IdentifierLenOf(id, "}" + q);
    assert t[2..][..|id|] == id;
  }

  /** Substitution renders the first piece and then the rest of the template. */
  lemma RenderOne(t: string, mapping: map<string, string>)
    requires |t| > 0
    ensures SafeSubstitute(t, mapping)
      == Render(NextPiece(t).0, mapping) + SafeSubstitute(t[NextPiece(t).1..], mapping)
  {
  }

  /** `$name` becomes the name's value, or stays verbatim for an unknown name, when
      what follows cannot continue the name. */
  lemma SubstituteNamed(id: string, q: string, mapping: map<string, string>)
    requires IsIdentifier(id)
    requires q == [] || !IsIdentChar(q[0])
    ensures SafeSubstitute("$" + id + q, mapping)
      == (if id in mapping then mapping[id] else "$" + id) + SafeSubstitute(q, mapping)
  {
    var t := "$" + id + q;
    NextPieceNamed(id, q);
    assert t[|id| + 1..] == q;
    RenderOne(t, mapping);
  }

  lemma NextPieceNamed(id: string, q: string)
    requires IsIdentifier(id)
    requires q == [] || !IsIdentChar(q[0])
    ensures NextPiece("$" + id + q) == (Named(id), |id| + 1)
  {
    var t := "$" + id + q;
    assert t[0] == '$';
    assert t[1..] == id + q;
    IdentifierLenOf(id, q);
    assert t[1..][..|id|] == id;
  }

  /** The greedy match of an identifier stops exactly where the identifier does. */
  lemma IdentifierLenOf(id: string, q: string)
    requires IsIdentifier(id)
    requires q == [] || !IsIdentChar(q[0])
    ensures IdentifierLen(id + q) == |id|
  {
    assert (id + q)[0] == id[0];
    IdentCharsLenOf(id, q);
  }

  lemma {:induction false} IdentCharsLenOf(cs: string, q: string)
    requires forall i :: 0 <= i < |cs| ==> IsIdentChar(cs[i])
    requires q == [] || !IsIdentChar(q[0])
    ensures IdentCharsLen(cs + q) == |cs|
  {
    if |cs| == 0 {
      assert cs + q == q;
    } else {
      assert (cs + q)[0] == cs[0];
      assert (cs + q)[1..] == cs[1..] + q;
      IdentCharsLenOf(cs[1..], q);
    }
  }

  /** A piece that `safe_substitute` leaves as written. */
  predicate NothingToReplace(p: Piece, mapping: map<string, string>) {
    match p
    case Escape => false
    case Named(id) => id !in mapping
    case Braced(id) => id !in mapping
    case _ => true
  }

  // ---- get_gdpr_url ----

  /** With no escape and no `profile_id` or `user_uuid` placeholder in the
      template, the address is `urljoin(template, PROFILE_ID)`. */
  lemma GdprUrlFallsBack(cfg: AppConfig, urljoin: (string, string) -> string)
    requires forall i :: 0 <= i < |Scan(cfg.gdprApiUrl)| ==>
      NothingToReplace(Scan(cfg.gdprApiUrl)[i], UrlMapping(cfg))
    ensures GdprUrl(cfg, urljoin) == urljoin(cfg.gdprApiUrl, cfg.profileId)
  {
  }

  /** A known placeholder between two texts without `$` is replaced by its value. */
  lemma SubstituteOnePlaceholder(p: string, ph: Piece, q: string, mapping: map<string, string>)
    requires (ph.Named? || ph.Braced?) && IsIdentifier(ph.id) && ph.id in mapping
    requires '$' !in p && '$' !in q
    requires ph.Named? ==> q == [] || !IsIdentChar(q[0])
    ensures SafeSubstitute(p + Spelling(ph) + q, mapping) == p + mapping[ph.id] + q
  {
    calc {
      SafeSubstitute(p + Spelling(ph) + q, mapping);
      { assert p + Spelling(ph) + q == p + (Spelling(ph) + q); }
      SafeSubstitute(p + (Spelling(ph) + q), mapping);
      { SubstitutePlainPrefix(p, Spelling(ph) + q, mapping); }
      p + SafeSubstitute(Spelling(ph) + q, mapping);
      { PlaceholderThenPlain(ph, q, mapping); }
      p + (mapping[ph.id] + q);
      p + mapping[ph.id] + q;
    }
  }

  lemma PlaceholderThenPlain(ph: Piece, q: string, mapping: map<string, string>)
    requires (ph.Named? || ph.Braced?) && IsIdentifier(ph.id) && ph.id in mapping
    requires '$' !in q
    requires ph.Named? ==> q == [] || !IsIdentChar(q[0])
    ensures SafeSubstitute(Spelling(ph) + q, mapping) == mapping[ph.id] + q
  {
    SubstituteWithoutDelimiter(q, mapping);
    if ph.Named? {
      SubstituteNamed(ph.id, q, mapping);
    } else {
      SubstituteBraced(ph.id, q, mapping);
    }
  }

  /** A template with a single `$profile_id`, `${profile_id}`, `$user_uuid` or
      `${user_uuid}` placeholder gets the configured value in its place, unless
      that value is the placeholder text itself, when the fallback applies. */
  lemma GdprUrlReplacesPlaceholder(cfg: AppConfig, urljoin: (string, string) -> string,
                                   p: string, ph: Piece, q: string)
    requires ph.Named? || ph.Braced?
    requires ph.id in {"profile_id", "user_uuid"}
    requires '$' !in p && '$' !in q
    requires ph.Named? ==> q == [] || !IsIdentChar(q[0])
    requires cfg.gdprApiUrl == p + Spelling(ph) + q
    ensures var value := UrlMapping(cfg)[ph.id];
      GdprUrl(cfg, urljoin) ==
        if value == Spelling(ph) then urljoin(cfg.gdprApiUrl, cfg.profileId) else p + value + q
  {
    var m := UrlMapping(cfg);
    MappedNamesAreIdentifiers();
    SubstituteOnePlaceholder(p, ph, q, m);
    MiddleDecides(p, m[ph.id], Spelling(ph), q);
  }

  lemma MappedNamesAreIdentifiers()
    ensures IsIdentifier("profile_id") && IsIdentifier("user_uuid")
  {
  }

  /** Two texts that share a prefix and a suffix are equal only if their middles are. */
  lemma MiddleDecides(p: string, a: string, b: string, q: string)
    ensures p + a + q == p + b + q <==> a == b
  {
    if p + a + q == p + b + q {
      assert |a| == |b|;
      assert a == (p + a + q)[|p|..|p| + |a|];
      assert b == (p + b + q)[|p|..|p| + |b|];
    }
  }

  /** A `$` that starts no escape, name or closed braced name (as in `$1`, `${x`
      or `${}`) is left as it is. */
  lemma SubstituteStray(q: string, mapping: map<string, string>)
    requires q == [] || (q[0] != '$' && !IsIdentStart(q[0]) && !(q[0] == '{' && ClosedBraced(q[1..])))
    ensures SafeSubstitute("$" + q, mapping) == "$" + SafeSubstitute(q, mapping)
  {
    var t := "$" + q;
    assert t[1..] == q;
    assert NextPiece(t) == (Stray, 1);
    RenderOne(t, mapping);
  }

  /** `$$` after a text without `$` becomes a single `$`, and substitution
      carries on after it. */
  lemma SubstituteEscape(p: string, q: string, mapping: map<string, string>)
    requires '$' !in p
    ensures SafeSubstitute(p + "$$" + q, mapping) == p + "$" + SafeSubstitute(q, mapping)
  {
    calc {
      SafeSubstitute(p + "$$" + q, mapping);
      { assert p + "$$" + q == p + ("$$" + q); }
      SafeSubstitute(p + ("$$" + q), mapping);
      { SubstitutePlainPrefix(p, "$$" + q, mapping); }
      p + SafeSubstitute("$$" + q, mapping);
      { ScanEscape(q); }
      p + RenderAll([Escape] + Scan(q), mapping);
      { RenderAllAppend([Escape], Scan(q), mapping); }
      p + ("$" + RenderAll(Scan(q), mapping));
    }
  }

  lemma ScanEscape(q: string)
    ensures Scan("$$" + q) == [Escape] + Scan(q)
  {
  }

  /** A template whose only `$` is one escape `$$` has no placeholder, yet it is
      not joined with the profile id: unescaping changed it, so no fallback. */
  lemma EscapeOnlyTemplateIsNotJoined(cfg: AppConfig, urljoin: (string, string) -> string,
                                      p: string, q: string)
    requires '$' !in p && '$' !in q
    requires cfg.gdprApiUrl == p + "$$" + q
    ensures GdprUrl(cfg, urljoin) == p + "$" + q
  {
    SubstituteEscape(p, q, UrlMapping(cfg));
    SubstituteWithoutDelimiter(q, UrlMapping(cfg));
    assert |p + "$" + q| != |p + "$$" + q|;
  }
}
