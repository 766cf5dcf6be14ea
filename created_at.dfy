/** The createdAt rule shared by the server's POST and PUT handlers
    (api/routes/index.js) and the client's `updateRecipe`
    (src/context/AppContext.tsx): a string that looks like an ISO 8601
    timestamp is rewritten to MySQL's `YYYY-MM-DD HH:MM:SS`.

    `new Date(s).toISOString()` is an oracle: `None` when it throws (an
    invalid date), otherwise the canonical UTC string it returns, of the
    form `YYYY-MM-DDTHH:MM:SS.sssZ` (the extended format of section 4.3.2 of
    ISO 8601, as `Date.prototype.toISOString` writes it). */
module CreatedAt {
  import opened Types
  import opened Text

  type IsoOracle = string -> Option<string>

  /** `s.includes('T') || s.includes('Z')`. */
  predicate LooksIso(s: string) {
    'T' in s || 'Z' in s
  }

  /** `toISOString`'s output shape: `YYYY-MM-DDTHH:MM:SS.sssZ`. */
  predicate IsIsoUtc(s: string) {
    && |s| == 24
    && (forall i :: i in {0, 1, 2, 3, 5, 6, 8, 9, 11, 12, 14, 15, 17, 18, 20, 21, 22} ==> IsDigit(s[i]))
    && s[4] == '-' && s[7] == '-' && s[10] == 'T' && s[13] == ':' && s[16] == ':' && s[19] == '.' && s[23] == 'Z'
  }

  /** MySQL's `YYYY-MM-DD HH:MM:SS`. */
  predicate IsMySqlDateTime(s: string) {
    && |s| == 19
    && (forall i :: i in {0, 1, 2, 3, 5, 6, 8, 9, 11, 12, 14, 15, 17, 18} ==> IsDigit(s[i]))
    && s[4] == '-' && s[7] == '-' && s[10] == ' ' && s[13] == ':' && s[16] == ':'
  }

  /** `String.prototype.replace` with a one-character pattern: the first
      occurrence only. */
  function ReplaceFirst(s: string, from: char, to: char): string
    decreases |s|
  {
    if s == [] then []
    else if s[0] == from then [to] + s[1..]
    else [s[0]] + ReplaceFirst(s[1..], from, to)
  }

  /** `iso.slice(0, 19).replace('T', ' ')`. */
  function MySqlForm(iso: string): string {
    ReplaceFirst(iso[..if |iso| < 19 then |iso| else 19], 'T', ' ')
  }

  /** The server's rewrite: only a string that looks like ISO is converted,
      and a conversion that throws keeps the string. */
  function ServerRewrite(createdAt: string, iso: IsoOracle): string {
    if LooksIso(createdAt) then
      match iso(createdAt)
      case Some(t) => MySqlForm(t)
      case None => createdAt
    else createdAt
  }

  /** `updateRecipe`'s rule: an empty createdAt becomes now, a string that
      looks like ISO is converted (now when the conversion throws), any
      other string is kept. `nowIso` is the clock's `toISOString()`. */
  function ClientRewrite(createdAt: string, iso: IsoOracle, nowIso: string): string {
    if createdAt == "" then MySqlForm(nowIso)
    else if LooksIso(createdAt) then
      match iso(createdAt)
      case Some(t) => MySqlForm(t)
      case None => MySqlForm(nowIso)
    else createdAt
  }

  lemma {:induction false} ReplaceFirstAt(s: string, k: nat)
    requires k < |s| && s[k] == 'T' && forall i :: 0 <= i < k ==> s[i] != 'T'
    ensures ReplaceFirst(s, 'T', ' ') == s[..k] + " " + s[k + 1..]
    decreases k
  {
    if k > 0 {
      ReplaceFirstAt(s[1..], k - 1);
      assert s[..k] == [s[0]] + s[1..][..k - 1];
    }
  }

  /** The MySQL form of a canonical UTC string is its date, a space and its
      time to the second. */
  lemma MySqlFormOfIso(t: string)
    requires IsIsoUtc(t)
    ensures MySqlForm(t) == t[..10] + " " + t[11..19]
    ensures IsMySqlDateTime(MySqlForm(t))
  {
    var head := t[..19];
    forall i | 0 <= i < 10 ensures head[i] != 'T' {
      assert i in {0, 1, 2, 3, 5, 6, 8, 9} || i == 4 || i == 7;
    }
    ReplaceFirstAt(head, 10);
    var r := MySqlForm(t);
    forall i | i in {0, 1, 2, 3, 5, 6, 8, 9, 11, 12, 14, 15, 17, 18} ensures IsDigit(r[i]) {
      assert r[i] == t[i];
    }
  }

  /** A MySQL datetime does not look like ISO. */
  lemma MySqlNotIso(s: string)
    requires IsMySqlDateTime(s)
    ensures !LooksIso(s)
  {
    forall i | 0 <= i < |s| ensures s[i] != 'T' && s[i] != 'Z' {
      if i in {0, 1, 2, 3, 5, 6, 8, 9, 11, 12, 14, 15, 17, 18} {
        assert IsDigit(s[i]);
      }
    }
  }

  /** The canonical case: a UTC timestamp that converts to itself becomes its
      date and time in MySQL form, and rewriting that again changes nothing. */
  lemma ServerRewriteOfUtc(s: string, iso: IsoOracle)
    requires IsIsoUtc(s) && iso(s) == Some(s)
    ensures ServerRewrite(s, iso) == s[..10] + " " + s[11..19]
    ensures ServerRewrite(ServerRewrite(s, iso), iso) == ServerRewrite(s, iso)
  {
    assert s[10] == 'T';
    MySqlFormOfIso(s);
    MySqlNotIso(MySqlForm(s));
  }

  /** Whenever the oracle answers in `toISOString`'s shape, the server's
      result is a MySQL datetime or the string it was given, and the latter
      only when the string does not look like ISO or its conversion throws. */
  lemma ServerRewriteCases(s: string, iso: IsoOracle)
    requires iso(s).Some? ==> IsIsoUtc(iso(s).value)
    ensures !LooksIso(s) ==> ServerRewrite(s, iso) == s
    ensures LooksIso(s) && iso(s).None? ==> ServerRewrite(s, iso) == s
    ensures LooksIso(s) && iso(s).Some? ==> IsMySqlDateTime(ServerRewrite(s, iso))
  {
    if LooksIso(s) && iso(s).Some? {
      MySqlFormOfIso(iso(s).value);
    }
  }

  /** The client's result is always a MySQL datetime unless the string is
      non-empty and does not look like ISO, in which case it is kept. */
  lemma ClientRewriteCases(s: string, iso: IsoOracle, nowIso: string)
    requires IsIsoUtc(nowIso)
    requires iso(s).Some? ==> IsIsoUtc(iso(s).value)
    ensures s != "" && !LooksIso(s) ==> ClientRewrite(s, iso, nowIso) == s
    ensures s == "" || LooksIso(s) ==> IsMySqlDateTime(ClientRewrite(s, iso, nowIso))
  {
    MySqlFormOfIso(nowIso);
    if s != "" && LooksIso(s) && iso(s).Some? {
      MySqlFormOfIso(iso(s).value);
    }
  }
}
