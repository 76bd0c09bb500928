/** The string behind the OnePay signature: the vpc_ parameters without the signature itself, sorted by name.
    The keyed hash is any function from strings to strings. */
module OnePay {
  import opened Domain
  import opened Decimals
  import opened UrlQuery

  /** A JavaScript object is the sequence of its properties in insertion order, names distinct. */
  predicate IsObject(params: seq<Param>) {
    forall i, j :: 0 <= i < j < |params| ==> params[i].name != params[j].name
  }

  const PREFIX := "vpc_"
  const SIGNATURE := "vpc_SecureHash"

  predicate StartsWith(s: string, prefix: string) {
    |prefix| <= |s| && s[..|prefix|] == prefix
  }

  /** Object.keys(params).filter(k => k.startsWith('vpc_')) */
  function VpcNames(params: seq<Param>): seq<string> {
    if |params| == 0 then []
    else
      (if StartsWith(params[0].name, PREFIX) then [params[0].name] else []) + VpcNames(params[1..])
  }

  /** params[k] */
  function ValueOf(params: seq<Param>, name: string): Option<string> {
    if |params| == 0 then None
    else if params[0].name == name then Some(params[0].value)
    else ValueOf(params[1..], name)
  }

  /** Array.prototype.sort on strings compares code units. */
  predicate Before(a: string, b: string) {
    if |a| == 0 then true
    else if |b| == 0 then false
    else if a[0] == b[0] then Before(a[1..], b[1..])
    else a[0] < b[0]
  }

  function Insert(name: string, sorted: seq<string>): seq<string> {
    if |sorted| == 0 then [name]
    else if Before(name, sorted[0]) then [name] + sorted
    else [sorted[0]] + Insert(name, sorted[1..])
  }

  function Sort(names: seq<string>): seq<string> {
    if |names| == 0 then [] else Insert(names[0], Sort(names[1..]))
  }

  function Join(params: seq<Param>, names: seq<string>): string {
    if |names| == 0 then ""
    else
      var value := ValueOf(params, names[0]);
      names[0] + "=" + (if value.Some? then value.value else "undefined")
      + (if |names| == 1 then "" else "&" + Join(params, names[1..]))
  }

  /** hashData of createSecureHash. */
  function Canonical(params: seq<Param>): string {
    Join(params, Sort(VpcNames(params)))
  }

  function CreateSecureHash(hash: string -> string, params: seq<Param>): string {
    hash(Canonical(params))
  }

  function Without(params: seq<Param>, name: string): seq<Param> {
    if |params| == 0 then []
    else (if params[0].name == name then [] else [params[0]]) + Without(params[1..], name)
  }

  /** verifyIpn: an absent or empty signature is refused. */
  predicate VerifyIpn(hash: string -> string, query: seq<Param>) {
    var received := ValueOf(query, SIGNATURE);
    received.Some? && received.value != "" && CreateSecureHash(hash, Without(query, SIGNATURE)) == received.value
  }

  // ----- sorting is canonical -----

  lemma {:induction false} BeforeTotal(a: string, b: string)
    ensures Before(a, b) || Before(b, a)
    ensures Before(a, b) && Before(b, a) ==> a == b
  {
    if |a| > 0 && |b| > 0 && a[0] == b[0] {
      BeforeTotal(a[1..], b[1..]);
      if a[1..] == b[1..] {
        assert a == [a[0]] + a[1..] && b == [b[0]] + b[1..];
      }
    }
  }

  lemma {:induction false} BeforeTransitive(a: string, b: string, c: string)
    requires Before(a, b) && Before(b, c)
    ensures Before(a, c)
  {
    if |a| > 0 && |b| > 0 && |c| > 0 && a[0] == b[0] == c[0] {
      BeforeTransitive(a[1..], b[1..], c[1..]);
    }
  }

  predicate Sorted(names: seq<string>) {
    forall i, j :: 0 <= i < j < |names| ==> Before(names[i], names[j])
  }

  lemma {:induction false} InsertKeeps(name: string, sorted: seq<string>)
    ensures multiset(Insert(name, sorted)) == multiset(sorted) + multiset{name}
  {
    if |sorted| > 0 {
      assert sorted == [sorted[0]] + sorted[1..];
      if !Before(name, sorted[0]) {
        InsertKeeps(name, sorted[1..]);
      }
    }
  }

  /** The first name is before all the others. */
  predicate Heads(name: string, names: seq<string>) {
    forall j :: 0 <= j < |names| ==> Before(name, names[j])
  }

  lemma SortedCons(name: string, names: seq<string>)
    requires Sorted(names) && Heads(name, names)
    ensures Sorted([name] + names)
  {
  }

  lemma {:induction false} InsertSorts(name: string, sorted: seq<string>)
    requires Sorted(sorted)
    ensures Sorted(Insert(name, sorted))
  {
    hide Before;
    if |sorted| > 0 {
      BeforeTotal(name, sorted[0]);
      if Before(name, sorted[0]) {
        forall j | 0 <= j < |sorted| ensures Before(name, sorted[j]) {
          if j > 0 {
            BeforeTransitive(name, sorted[0], sorted[j]);
          }
        }
        SortedCons(name, sorted);
      } else {
        InsertSorts(name, sorted[1..]);
        var rest := Insert(name, sorted[1..]);
        InsertKeeps(name, sorted[1..]);
        forall j | 0 <= j < |rest| ensures Before(sorted[0], rest[j]) {
          assert rest[j] in multiset(rest);
        }
        SortedCons(sorted[0], rest);
      }
    }
  }

  lemma {:induction false} SortSorts(names: seq<string>)
    ensures Sorted(Sort(names)) && multiset(Sort(names)) == multiset(names)
  {
    if |names| > 0 {
      SortSorts(names[1..]);
      InsertSorts(names[0], Sort(names[1..]));
      InsertKeeps(names[0], Sort(names[1..]));
      assert names == [names[0]] + names[1..];
    }
  }

  lemma SameHead(a: seq<string>, b: seq<string>)
    requires Sorted(a) && Sorted(b) && multiset(a) == multiset(b) && |a| > 0
    ensures |b| > 0 && a[0] == b[0]
  {
    hide Before;
    assert a[0] in multiset(b);
    var i :| 0 <= i < |b| && b[i] == a[0];
    assert b[0] in multiset(a);
    var j :| 0 <= j < |a| && a[j] == b[0];
    BeforeTotal(a[0], b[0]);
  }

  /** Two sorted lists of the same names are the same list. */
  lemma {:induction false} SortedUnique(a: seq<string>, b: seq<string>)
    requires Sorted(a) && Sorted(b) && multiset(a) == multiset(b)
    ensures a == b
  {
    hide Before;
    if |a| == 0 {
      assert |multiset(b)| == |b|;
    } else {
      SameHead(a, b);
      assert Sorted(a[1..]) && Sorted(b[1..]);
      hide Sorted;
      assert a == [a[0]] + a[1..] && b == [b[0]] + b[1..];
      assert multiset(a[1..]) == multiset(a) - multiset{a[0]};
      assert multiset(b[1..]) == multiset(b) - multiset{b[0]};
      SortedUnique(a[1..], b[1..]);
    }
  }

  // ----- the canonical string depends on the vpc_ parameters only -----

  lemma {:induction false} VpcNamesAre(params: seq<Param>, name: string)
    requires IsObject(params)
    ensures multiset(VpcNames(params))[name]
            == (if StartsWith(name, PREFIX) && ValueOf(params, name).Some? then 1 else 0)
  {
    if |params| > 0 {
      VpcNamesAre(params[1..], name);
      if params[0].name == name {
        NotLater(params[1..], name);
      }
    }
  }

  lemma {:induction false} NotLater(params: seq<Param>, name: string)
    requires forall i :: 0 <= i < |params| ==> params[i].name != name
    ensures ValueOf(params, name).None?
  {
    if |params| > 0 {
      NotLater(params[1..], name);
    }
  }

  /** Same value, or same absence, for every vpc_ name. */
  ghost predicate SameVpc(a: seq<Param>, b: seq<Param>) {
    forall name :: StartsWith(name, PREFIX) ==> ValueOf(a, name) == ValueOf(b, name)
  }

  lemma {:induction false} JoinSame(a: seq<Param>, b: seq<Param>, names: seq<string>)
    requires SameVpc(a, b) && forall i :: 0 <= i < |names| ==> StartsWith(names[i], PREFIX)
    ensures Join(a, names) == Join(b, names)
  {
    if |names| > 0 {
      JoinSame(a, b, names[1..]);
    }
  }

  lemma {:induction false} VpcNamesPrefixed(params: seq<Param>)
    ensures forall i :: 0 <= i < |VpcNames(params)| ==> StartsWith(VpcNames(params)[i], PREFIX)
  {
    if |params| > 0 {
      VpcNamesPrefixed(params[1..]);
    }
  }

  /** Insertion order and parameters without the prefix make no difference to the string that is hashed. */
  lemma CanonicalIgnoresOrder(a: seq<Param>, b: seq<Param>)
    requires IsObject(a) && IsObject(b) && SameVpc(a, b)
    ensures Canonical(a) == Canonical(b)
  {
    var na := VpcNames(a);
    var nb := VpcNames(b);
    forall name ensures multiset(na)[name] == multiset(nb)[name] {
      VpcNamesAre(a, name);
      VpcNamesAre(b, name);
    }
    assert multiset(na) == multiset(nb);
    SortSorts(na);
    SortSorts(nb);
    SortedUnique(Sort(na), Sort(nb));
    VpcNamesPrefixed(a);
    forall i | 0 <= i < |Sort(na)| ensures StartsWith(Sort(na)[i], PREFIX) {
      assert Sort(na)[i] in multiset(na);
    }
    JoinSame(a, b, Sort(na));
  }

  // ----- the canonical string itself -----

  /** Names are ordered by their first difference, and a proper prefix comes first. */
  lemma {:induction false} BeforeIff(a: string, b: string)
    ensures Before(a, b)
       <==> exists n: nat :: n <= |a| && n <= |b| && a[..n] == b[..n] && (n == |a| || (n < |b| && a[n] < b[n]))
  {
    if |a| > 0 && |b| > 0 && a[0] == b[0] {
      BeforeIff(a[1..], b[1..]);
      if Before(a, b) {
        var n: nat :| n <= |a[1..]| && n <= |b[1..]| && a[1..][..n] == b[1..][..n]
                      && (n == |a[1..]| || (n < |b[1..]| && a[1..][n] < b[1..][n]));
        var m := n + 1;
        assert a[..m] == [a[0]] + a[1..][..n] && b[..m] == [b[0]] + b[1..][..n];
      }
      if m: nat :| m <= |a| && m <= |b| && a[..m] == b[..m] && (m == |a| || (m < |b| && a[m] < b[m])) {
        assert m != 0;
        var n := m - 1;
        assert a[1..][..n] == a[..m][1..] && b[1..][..n] == b[..m][1..];
        assert n == |a[1..]| || (n < |b[1..]| && a[1..][n] < b[1..][n]);
      }
    } else if Before(a, b) {
      var n := 0;
      assert a[..n] == b[..n];
    }
  }

  /** Reading name=value pairs separated by &, as they stand. */
  function ReadPair(s: string): Param {
    var value := UrlQuery.After(s, '=');
    Param(UrlQuery.Before(s, '='), if value.Some? then value.value else "")
  }

  function ReadPairs(s: string): seq<Param>
    decreases |s|
  {
    var rest := UrlQuery.After(s, '&');
    if s == "" then []
    else [ReadPair(UrlQuery.Before(s, '&'))] + if rest.Some? then ReadPairs(rest.value) else []
  }

  /** Separators stand neither in the name nor in the value, and the parameter is there. */
  predicate Separable(params: seq<Param>, name: string) {
    var value := ValueOf(params, name);
    '&' !in name && '=' !in name && value.Some? && '&' !in value.value
  }

  function Pairs(params: seq<Param>, names: seq<string>): seq<Param> {
    if |names| == 0 then []
    else
      var value := ValueOf(params, names[0]);
      [Param(names[0], if value.Some? then value.value else "undefined")] + Pairs(params, names[1..])
  }

  lemma ReadNext(name: string, value: string, rest: string)
    requires '&' !in name && '=' !in name && '&' !in value
    ensures ReadPairs(name + "=" + value) == [Param(name, value)]
    ensures ReadPairs(name + "=" + value + "&" + rest) == [Param(name, value)] + ReadPairs(rest)
  {
    var first := name + "=" + value;
    UrlQuery.SplitAt(name, '=', value);
    UrlQuery.SplitAt(first, '&', rest);
    hide UrlQuery.Before, UrlQuery.After;
    assert first != "";
  }

  lemma {:induction false} JoinReadsBack(params: seq<Param>, names: seq<string>)
    requires forall i :: 0 <= i < |names| ==> Separable(params, names[i])
    ensures ReadPairs(Join(params, names)) == Pairs(params, names)
  {
    if |names| > 0 {
      var value := ValueOf(params, names[0]).value;
      JoinReadsBack(params, names[1..]);
      ReadNext(names[0], value, Join(params, names[1..]));
      if |names| > 1 {
        assert Join(params, names) == names[0] + "=" + value + "&" + Join(params, names[1..]);
      } else {
        assert Join(params, names) == names[0] + "=" + value;
      }
      hide ReadPairs, ValueOf;
    }
  }

  lemma {:induction false} PairsAre(params: seq<Param>, names: seq<string>)
    requires forall i :: 0 <= i < |names| ==> Separable(params, names[i])
    ensures |Pairs(params, names)| == |names|
    ensures forall i :: 0 <= i < |names| ==>
              Pairs(params, names)[i].name == names[i]
                && ValueOf(params, names[i]) == Some(Pairs(params, names)[i].value)
  {
    if |names| > 0 {
      PairsAre(params, names[1..]);
    }
  }

  /** What is hashed is exactly the vpc_ parameters, each once, as name=value in the order of their names, joined by &:
      as long as no separator stands in them, it reads back as that list. */
  lemma CanonicalReadsBack(params: seq<Param>)
    requires IsObject(params)
    requires forall name :: StartsWith(name, "vpc_") && ValueOf(params, name).Some? ==> Separable(params, name)
    ensures var pairs := ReadPairs(Canonical(params));
            && (forall i, j :: 0 <= i < j < |pairs| ==>
                  pairs[i].name != pairs[j].name && Before(pairs[i].name, pairs[j].name))
            && (forall i :: 0 <= i < |pairs| ==>
                  StartsWith(pairs[i].name, "vpc_") && ValueOf(params, pairs[i].name) == Some(pairs[i].value))
            && (forall name :: StartsWith(name, "vpc_") && ValueOf(params, name).Some? ==>
                  exists i :: 0 <= i < |pairs| && pairs[i].name == name)
  {
    var names := Sort(VpcNames(params));
    SortSorts(VpcNames(params));
    NamesOnce(params, names);
    hide Canonical, Join, Before, ValueOf, StartsWith, IsObject, ReadPairs, Pairs, Separable;
    JoinReadsBack(params, names);
    PairsAre(params, names);
    CanonicalIs(params);
  }

  lemma CanonicalIs(params: seq<Param>)
    ensures Canonical(params) == Join(params, Sort(VpcNames(params)))
  {
  }

  /** The names that are joined: every vpc_ name that has a value, once. */
  lemma NamesOnce(params: seq<Param>, names: seq<string>)
    requires IsObject(params) && multiset(names) == multiset(VpcNames(params))
    ensures forall i :: 0 <= i < |names| ==> StartsWith(names[i], "vpc_") && ValueOf(params, names[i]).Some?
    ensures forall i, j :: 0 <= i < j < |names| ==> names[i] != names[j]
    ensures forall name :: StartsWith(name, "vpc_") && ValueOf(params, name).Some? ==> name in names
  {
    forall name
      ensures multiset(names)[name] == if StartsWith(name, "vpc_") && ValueOf(params, name).Some? then 1 else 0
    {
      VpcNamesAre(params, name);
    }
    hide VpcNames, StartsWith, ValueOf, IsObject;
    forall i | 0 <= i < |names| ensures StartsWith(names[i], "vpc_") && ValueOf(params, names[i]).Some? {
      assert names[i] in multiset(names);
    }
    forall i, j | 0 <= i < j < |names| ensures names[i] != names[j] {
      if names[i] == names[j] {
        TwiceCounts(names, i, j);
      }
    }
    forall name | StartsWith(name, "vpc_") && ValueOf(params, name).Some? ensures name in names {
      assert name in multiset(names);
    }
  }

  lemma TwiceCounts(names: seq<string>, i: nat, j: nat)
    requires i < j < |names| && names[i] == names[j]
    ensures 2 <= multiset(names)[names[i]]
  {
    assert names == names[..j] + names[j..];
    assert names[i] in multiset(names[..j]) && names[j] in multiset(names[j..]);
    assert multiset(names) == multiset(names[..j]) + multiset(names[j..]);
  }

  // ----- signing and verifying -----

  lemma {:induction false} WithoutValues(params: seq<Param>, drop: string, name: string)
    ensures ValueOf(Without(params, drop), name) == if name == drop then None else ValueOf(params, name)
  {
    if |params| > 0 {
      WithoutValues(params[1..], drop, name);
      if params[0].name == drop {
        assert Without(params, drop) == Without(params[1..], drop);
      } else {
        assert Without(params, drop)[1..] == Without(params[1..], drop);
      }
    }
  }

  lemma {:induction false} WithoutNames(params: seq<Param>, drop: string, name: string)
    requires forall i :: 0 <= i < |params| ==> params[i].name != name
    ensures forall i :: 0 <= i < |Without(params, drop)| ==> Without(params, drop)[i].name != name
  {
    if |params| > 0 {
      WithoutNames(params[1..], drop, name);
    }
  }

  lemma {:induction false} WithoutIsObject(params: seq<Param>, drop: string)
    requires IsObject(params)
    ensures IsObject(Without(params, drop))
  {
    if |params| > 0 {
      WithoutIsObject(params[1..], drop);
      WithoutNames(params[1..], drop, params[0].name);
    }
  }

  /** The query carries these vpc_ parameters, whatever else it carries and in whatever order. */
  ghost predicate Carries(query: seq<Param>, params: seq<Param>) {
    forall name :: StartsWith(name, PREFIX) && name != SIGNATURE ==> ValueOf(query, name) == ValueOf(params, name)
  }

  /** A query carrying the signed parameters verifies exactly when its signature is the one createSecureHash made
      for them and that is not the empty string. */
  lemma VerifyIff(hash: string -> string, params: seq<Param>, query: seq<Param>)
    requires IsObject(params) && IsObject(query) && ValueOf(params, SIGNATURE).None? && Carries(query, params)
    ensures VerifyIpn(hash, query) <==>
            ValueOf(query, SIGNATURE) == Some(CreateSecureHash(hash, params)) && CreateSecureHash(hash, params) != ""
  {
    var stripped := Without(query, SIGNATURE);
    WithoutIsObject(query, SIGNATURE);
    forall name | StartsWith(name, PREFIX) ensures ValueOf(stripped, name) == ValueOf(params, name) {
      WithoutValues(query, SIGNATURE, name);
    }
    CanonicalIgnoresOrder(stripped, params);
  }

  // ----- the payment URL -----

  datatype Config = Config(payUrl: string, accessCode: string, merchantId: string, returnUrl: string, ipnUrl: string)

  datatype PaymentRequest = PaymentRequest(orderNumber: string, vndAmount: nat, clientIp: string,
                                           locale: Option<string>,
                               orderInfo: Option<string>, againLink: Option<string>, title: Option<string>,
                               returnUrl: Option<string>)

  function Or(value: Option<string>, default: string): string {
    if value.Some? then value.value else default
  }

  function VpcParams(cfg: Config, c: PaymentRequest): seq<Param> {
    [Param("vpc_Version", "2"), Param("vpc_Command", "pay"), Param("vpc_AccessCode", cfg.accessCode),
     Param("vpc_Merchant", cfg.merchantId), Param("vpc_Locale", Or(c.locale, "vn")),
     Param("vpc_ReturnURL", Or(c.returnUrl, cfg.returnUrl)), Param("vpc_CallbackURL", cfg.ipnUrl),
     Param("vpc_MerchTxnRef", c.orderNumber), Param("vpc_OrderInfo", Or(c.orderInfo, c.orderNumber)),
     Param("vpc_Amount", Decimal(100 * c.vndAmount)), Param("vpc_Currency", "VND"), Param("vpc_TicketNo", c.clientIp)]
  }

  /** All parameters of the payment URL. */
  function PaymentQuery(hash: string -> string, cfg: Config, c: PaymentRequest): seq<Param> {
    VpcParams(cfg, c)
      + [Param("AgainLink", Or(c.againLink, cfg.returnUrl)), Param("Title", Or(c.title, "eSIM Payment")),
                         Param(SIGNATURE, CreateSecureHash(hash, VpcParams(cfg, c)))]
  }

  function BuildPaymentUrl(hash: string -> string, encode: string -> seq<Byte>, cfg: Config,
                           c: PaymentRequest): string {
    cfg.payUrl + "?" + Query(encode, PaymentQuery(hash, cfg, c))
  }

  lemma {:induction false} ValueConcat(a: seq<Param>, b: seq<Param>, name: string)
    ensures ValueOf(a + b, name) == if ValueOf(a, name).Some? then ValueOf(a, name) else ValueOf(b, name)
  {
    if |a| == 0 {
      assert a + b == b;
    } else {
      assert (a + b)[1..] == a[1..] + b;
      ValueConcat(a[1..], b, name);
    }
  }

  function Extras(cfg: Config, c: PaymentRequest, signature: string): seq<Param> {
    [Param("AgainLink", Or(c.againLink, cfg.returnUrl)), Param("Title", Or(c.title, "eSIM Payment")),
     Param(SIGNATURE, signature)]
  }

  lemma ExtrasAre(cfg: Config, c: PaymentRequest, signature: string)
    ensures ValueOf(Extras(cfg, c, signature), SIGNATURE) == Some(signature)
    ensures forall name :: StartsWith(name, PREFIX) && name != SIGNATURE ==>
            ValueOf(Extras(cfg, c, signature), name).None?
  {
    var extras := Extras(cfg, c, signature);
    assert ValueOf(extras[1..][1..], SIGNATURE) == Some(signature);
    forall name | StartsWith(name, PREFIX) && name != SIGNATURE ensures ValueOf(extras, name).None? {
      assert name[..4][0] == 'v' && "AgainLink"[0] == 'A' && "Title"[0] == 'T';
      NotLater(extras, name);
    }
  }

  /** Length and fifth letter tell the fifteen names apart. */
  function NameCode(name: string): int {
    if |name| < 5 then 0 else 1000 * |name| + name[4] as int
  }

  const NAME_CODES := [11086, 11067, 14065, 12077, 10076, 13082, 15067, 15077, 13079, 10065, 12067, 12084, 9110, 5101,
                       14083]

  lemma NamesHaveCodes(cfg: Config, c: PaymentRequest, signature: string)
    ensures var query := VpcParams(cfg, c) + Extras(cfg, c, signature);
            |query| == |NAME_CODES| && forall i :: 0 <= i < |query| ==> NameCode(query[i].name) == NAME_CODES[i]
  {
  }

  lemma VpcParamsAre(cfg: Config, c: PaymentRequest, signature: string)
    ensures ValueOf(VpcParams(cfg, c), SIGNATURE).None? && IsObject(VpcParams(cfg, c))
            && IsObject(VpcParams(cfg, c) + Extras(cfg, c, signature))
  {
    var params := VpcParams(cfg, c);
    var query := params + Extras(cfg, c, signature);
    assert |params| == 12;
    NamesHaveCodes(cfg, c, signature);
    assert NameCode(SIGNATURE) == 14083;
    hide VpcParams, Extras, NameCode;
    assert forall i, j :: 0 <= i < j < |NAME_CODES| ==> NAME_CODES[i] != NAME_CODES[j];
    forall i | 0 <= i < 12 ensures params[i].name != SIGNATURE {
      assert query[i] == params[i] && NameCode(query[i].name) == NAME_CODES[i];
    }
    NotLater(params, SIGNATURE);
    forall i, j | 0 <= i < j < |query| ensures query[i].name != query[j].name {
      assert NameCode(query[i].name) == NAME_CODES[i] && NameCode(query[j].name) == NAME_CODES[j];
    }
    forall i, j | 0 <= i < j < |params| ensures params[i].name != params[j].name {
      assert query[i] == params[i] && query[j] == params[j];
    }
  }

  /** A payment query verifies as it stands: the extra parameters and its own signature do not disturb it. */
  lemma PaymentQueryVerifies(hash: string -> string, cfg: Config, c: PaymentRequest)
    requires forall s :: hash(s) != ""
    ensures VerifyIpn(hash, PaymentQuery(hash, cfg, c))
  {
    var params := VpcParams(cfg, c);
    var signature := CreateSecureHash(hash, params);
    var query := params + Extras(cfg, c, signature);
    assert PaymentQuery(hash, cfg, c) == query;
    VpcParamsAre(cfg, c, signature);
    ExtrasAre(cfg, c, signature);
    SignatureNotEmpty(hash, params);
    hide VpcParams, Extras, PaymentQuery, CreateSecureHash, ValueOf;
    forall name | StartsWith(name, PREFIX) && name != SIGNATURE ensures ValueOf(query, name) == ValueOf(params, name) {
      ValueConcat(params, Extras(cfg, c, signature), name);
    }
    ValueConcat(params, Extras(cfg, c, signature), SIGNATURE);
    VerifyIff(hash, params, query);
  }

  lemma {:induction false} ValueAt(params: seq<Param>, i: nat)
    requires IsObject(params) && i < |params|
    ensures ValueOf(params, params[i].name) == Some(params[i].value)
  {
    if 0 < i {
      ValueAt(params[1..], i - 1);
    }
  }

  /** Which value goes under which name: in particular the order number is the reference, and the amount is in
      hundredths of a VND, so its text is the price with two zeros behind it. */
  lemma PaymentFields(cfg: Config, c: PaymentRequest)
    ensures var params := VpcParams(cfg, c);
            && ValueOf(params, "vpc_Version") == Some("2") && ValueOf(params, "vpc_Command") == Some("pay")
            && ValueOf(params, "vpc_Locale") == Some(if c.locale.Some? then c.locale.value else "vn")
            && ValueOf(params, "vpc_OrderInfo") == Some(if c.orderInfo.Some? then c.orderInfo.value else c.orderNumber)
            && ValueOf(params, "vpc_TicketNo") == Some(c.clientIp)
            && ValueOf(params, "vpc_Merchant") == Some(cfg.merchantId)
            && ValueOf(params, "vpc_AccessCode") == Some(cfg.accessCode)
            && ValueOf(params, "vpc_CallbackURL") == Some(cfg.ipnUrl)
            && ValueOf(params, "vpc_ReturnURL") == Some(if c.returnUrl.Some? then c.returnUrl.value else cfg.returnUrl)
            && ValueOf(params, "vpc_MerchTxnRef") == Some(c.orderNumber)
            && ValueOf(params, "vpc_Currency") == Some("VND")
            && ValueOf(params, "vpc_Amount") == Some(if c.vndAmount == 0 then "0" else Decimal(c.vndAmount) + "00")
  {
    if 0 < c.vndAmount {
      HundredTimes(c.vndAmount);
    }
    hide ValueOf;
    Field(cfg, c, 0, "vpc_Version", "2");
    Field(cfg, c, 1, "vpc_Command", "pay");
    Field(cfg, c, 2, "vpc_AccessCode", cfg.accessCode);
    Field(cfg, c, 3, "vpc_Merchant", cfg.merchantId);
    Field(cfg, c, 4, "vpc_Locale", Or(c.locale, "vn"));
    Field(cfg, c, 5, "vpc_ReturnURL", Or(c.returnUrl, cfg.returnUrl));
    Field(cfg, c, 6, "vpc_CallbackURL", cfg.ipnUrl);
    Field(cfg, c, 7, "vpc_MerchTxnRef", c.orderNumber);
    Field(cfg, c, 8, "vpc_OrderInfo", Or(c.orderInfo, c.orderNumber));
    Field(cfg, c, 9, "vpc_Amount", Decimal(100 * c.vndAmount));
    Field(cfg, c, 10, "vpc_Currency", "VND");
    Field(cfg, c, 11, "vpc_TicketNo", c.clientIp);
    hide VpcParams;
  }

  lemma Field(cfg: Config, c: PaymentRequest, i: nat, name: string, value: string)
    requires i < |VpcParams(cfg, c)| && VpcParams(cfg, c)[i] == Param(name, value)
    ensures ValueOf(VpcParams(cfg, c), name) == Some(value)
  {
    VpcParamsAre(cfg, c, "");
    ValueAt(VpcParams(cfg, c), i);
    hide VpcParams, ValueOf, IsObject;
  }

  /** So does the payment URL once its encoded query is read back, whatever characters its parameters contain. */
  lemma PaymentUrlVerifies(hash: string -> string, encode: string -> seq<Byte>, decode: seq<Byte> -> string,
                           cfg: Config, c: PaymentRequest)
    requires Inverse(encode, decode) && forall s :: hash(s) != ""
    ensures var url := BuildPaymentUrl(hash, encode, cfg, c);
            && |cfg.payUrl| < |url| && url[..|cfg.payUrl| + 1] == cfg.payUrl + "?"
            && Parse(decode, url[|cfg.payUrl| + 1..]) == PaymentQuery(hash, cfg, c)
            && VerifyIpn(hash, Parse(decode, url[|cfg.payUrl| + 1..]))
  {
    var query := PaymentQuery(hash, cfg, c);
    assert BuildPaymentUrl(hash, encode, cfg, c)[|cfg.payUrl| + 1..] == Query(encode, query);
    QueryRoundTrip(encode, decode, query);
    PaymentQueryVerifies(hash, cfg, c);
    hide Query, Parse, PaymentQuery, VerifyIpn, Inverse;
  }

  lemma SignatureNotEmpty(hash: string -> string, params: seq<Param>)
    requires forall s :: hash(s) != ""
    ensures CreateSecureHash(hash, params) != ""
  {
  }
}
