/** The URL the client sends to change an order's lifecycle or payment status, and how
    the backend's request-parameter binding reads it back. */
module StatusQuery {
  import opened Wrappers
  import opened Text

  /** The order endpoint's base address; any fixed string serves the properties below. */
  const ApiUrl := "http://ecom-app-mm743.eastus.azurecontainer.io:8080/api/orders"

  /** The value as the backend should see it: the argument when given, otherwise absent. */
  function Normalised(v: Option<string>): Option<string> {
    if Present(v) then v else None
  }

  predicate NoAmpersand(s: string) { forall i :: 0 <= i < |s| ==> s[i] != '&' }

  /** A value the client's unencoded URL carries through unchanged: no '&' (a field
      separator), '+' (read back as a space), '%' (an escape) or '#' (the fragment mark,
      which the browser cuts off). The status words the dashboards send are plain. */
  predicate PlainValue(s: string) {
    forall i :: 0 <= i < |s| ==> s[i] != '&' && s[i] != '+' && s[i] != '%' && s[i] != '#'
  }

  /** The parameters `updateOrderStatus` accumulates: "?", then "status=S&" when a
      status is given, then "paymentStatus=P" when a payment status is given. */
  function Params(status: Option<string>, paymentStatus: Option<string>): (params: string)
    ensures |params| >= 1 && params[0] == '?'
  {
    "?"
    + (if Present(status) then "status=" + status.value + "&" else "")
    + (if Present(paymentStatus) then "paymentStatus=" + paymentStatus.value else "")
  }

  /** One trailing '&', if any, removed; a leading '?' stays. */
  function StripAmpersand(params: string): (r: string)
    requires |params| >= 1
    ensures params[0] == '?' ==> |r| >= 1 && r[0] == '?'
  {
    if params[|params| - 1] == '&' then params[..|params| - 1] else params
  }

  lemma SuffixNeither(status: Option<string>, paymentStatus: Option<string>)
    requires !Present(status) && !Present(paymentStatus)
    ensures StripAmpersand(Params(status, paymentStatus)) == "?"
  {
    assert Params(status, paymentStatus) == "?";
  }

  lemma SuffixStatusOnly(s: string, paymentStatus: Option<string>)
    requires s != "" && !Present(paymentStatus)
    ensures StripAmpersand(Params(Some(s), paymentStatus)) == "?status=" + s
    ensures NoAmpersand(s) ==> s[|s| - 1] != '&'
  {
    var params := Params(Some(s), paymentStatus);
    assert params == "?status=" + s + "&";
    assert params[..|params| - 1] == "?status=" + s;
  }

  lemma SuffixPaymentOnly(status: Option<string>, p: string)
    requires !Present(status) && p != "" && NoAmpersand(p)
    ensures StripAmpersand(Params(status, Some(p))) == "?paymentStatus=" + p
  {
    var params := Params(status, Some(p));
    assert params == "?paymentStatus=" + p;
    assert params[|params| - 1] == p[|p| - 1];
  }

  lemma SuffixBoth(s: string, p: string)
    requires s != "" && p != "" && NoAmpersand(p)
    ensures StripAmpersand(Params(Some(s), Some(p))) == "?status=" + s + "&paymentStatus=" + p
  {
    var params := Params(Some(s), Some(p));
    assert params == "?status=" + s + "&paymentStatus=" + p;
    assert params[|params| - 1] == p[|p| - 1];
  }

  /** The query suffix `updateOrderStatus` builds: the parameters with one trailing '&'
      removed. Every branch computes the same expression; the branches only pick the
      lemma that describes the case. */
  function QuerySuffix(status: Option<string>, paymentStatus: Option<string>): (q: string)
    ensures !Present(status) && !Present(paymentStatus) ==> q == "?"
    ensures Present(status) && !Present(paymentStatus) ==> q == "?status=" + status.value
    ensures !Present(status) && Present(paymentStatus) && NoAmpersand(paymentStatus.value) ==>
      q == "?paymentStatus=" + paymentStatus.value
    ensures Present(status) && Present(paymentStatus) && NoAmpersand(paymentStatus.value) ==>
      q == "?status=" + status.value + "&paymentStatus=" + paymentStatus.value
    ensures |q| >= 1 && q[0] == '?'
    ensures (Present(status) ==> NoAmpersand(status.value)) && (Present(paymentStatus) ==> NoAmpersand(paymentStatus.value))
      ==> q[|q| - 1] != '&'
  {
    if !Present(status) && !Present(paymentStatus) then
      SuffixNeither(status, paymentStatus);
      StripAmpersand(Params(status, paymentStatus))
    else if !Present(paymentStatus) then
      SuffixStatusOnly(status.value, paymentStatus);
      StripAmpersand(Params(status, paymentStatus))
    else if !Present(status) then
      if NoAmpersand(paymentStatus.value) then
        SuffixPaymentOnly(status, paymentStatus.value);
        StripAmpersand(Params(status, paymentStatus))
      else
        StripAmpersand(Params(status, paymentStatus))
    else
      if NoAmpersand(paymentStatus.value) then
        SuffixBoth(status.value, paymentStatus.value);
        StripAmpersand(Params(status, paymentStatus))
      else
        StripAmpersand(Params(status, paymentStatus))
  }

  /** The full address of the status update request; `UpdateUrlRoundTrip` states what
      the backend reads from it. */
  function UpdateUrl(orderId: int, status: Option<string>, paymentStatus: Option<string>): string
  {
    ApiUrl + "/update/" + IntToString(orderId) + QuerySuffix(status, paymentStatus)
  }

  // ---------------------------------------------------------------- reading it back

  /** The '&'-separated fields of a query string. */
  function SplitFields(s: string): (fields: seq<string>)
    ensures |fields| >= 1
    decreases |s|
  {
    var i := IndexOf(s, '&', 0);
    if i == |s| then [s] else [s[..i]] + SplitFields(s[i + 1..])
  }

  lemma SplitWithout(s: string)
    requires NoAmpersand(s)
    ensures SplitFields(s) == [s]
  {
    var i := IndexOf(s, '&', 0);
  }

  lemma SplitAt(a: string, b: string)
    requires NoAmpersand(a)
    ensures SplitFields(a + "&" + b) == [a] + SplitFields(b)
  {
    var s := a + "&" + b;
    var i := IndexOf(s, '&', 0);
    assert s[|a|] == '&';
    assert forall j :: 0 <= j < |a| ==> s[j] == a[j];
    assert s[..|a|] == a;
    assert s[|a| + 1..] == b;
  }

  /** The value of the first field `key=value`, as a request-parameter binding reads it. */
  function Lookup(fields: seq<string>, key: string): Option<string>
    decreases |fields|
  {
    if |fields| == 0 then None
    else
      var prefix := key + "=";
      if |prefix| <= |fields[0]| && fields[0][..|prefix|] == prefix then Some(fields[0][|prefix|..])
      else Lookup(fields[1..], key)
  }

  /** The `status` and `paymentStatus` parameters of a query suffix, where a parameter
      bound to the empty string counts as absent (the backend ignores it). */
  function Decode(q: string): (Option<string>, Option<string>) {
    if |q| == 0 || q[0] != '?' then (None, None)
    else
      var fields := SplitFields(q[1..]);
      (Normalised(Lookup(fields, "status")), Normalised(Lookup(fields, "paymentStatus")))
  }

  lemma FieldWithoutAmpersand(key: string, v: string)
    requires NoAmpersand(key) && NoAmpersand(v)
    ensures NoAmpersand(key + v)
  {
    assert forall i :: |key| <= i < |key + v| ==> (key + v)[i] == v[i - |key|];
  }

  /** A field `key=v` at the head of the list answers a lookup of `key`. */
  lemma LookupHead(key: string, v: string, rest: seq<string>)
    ensures Lookup([key + "=" + v] + rest, key) == Some(v)
  {
    var f := key + "=" + v;
    assert f[..|key + "="|] == key + "=";
    assert f[|key + "="|..] == v;
  }

  /** A `status=` field is passed over when looking up `paymentStatus`. */
  lemma LookupSkipsStatus(s: string, rest: seq<string>)
    ensures Lookup(["status=" + s] + rest, "paymentStatus") == Lookup(rest, "paymentStatus")
  {
    var f := "status=" + s;
    assert |f| < 14 || f[..14][0] != "paymentStatus="[0];
    assert ([f] + rest)[1..] == rest;
  }

  /** Decoding a query suffix is looking both keys up in its fields. */
  lemma DecodeFields(q: string, fields: seq<string>)
    requires |q| > 0 && q[0] == '?' && SplitFields(q[1..]) == fields
    ensures Decode(q) == (Normalised(Lookup(fields, "status")), Normalised(Lookup(fields, "paymentStatus")))
  {
  }

  lemma DecodeBoth(s: string, p: string)
    requires s != "" && p != "" && NoAmpersand(s) && NoAmpersand(p)
    ensures Decode("?status=" + s + "&paymentStatus=" + p) == (Some(s), Some(p))
  {
    var a := "status=" + s;
    var b := "paymentStatus=" + p;
    var q := "?status=" + s + "&paymentStatus=" + p;
    assert q[1..] == a + "&" + b;
    FieldWithoutAmpersand("status=", s);
    FieldWithoutAmpersand("paymentStatus=", p);
    SplitAt(a, b);
    SplitWithout(b);
    DecodeFields(q, [a] + [b]);
    assert "status" + "=" == "status=" && "paymentStatus" + "=" == "paymentStatus=";
    LookupHead("status", s, [b]);
    LookupSkipsStatus(s, [b]);
    LookupHead("paymentStatus", p, []);
    assert [b] + [] == [b];
  }

  lemma DecodeStatusOnly(s: string)
    requires s != "" && NoAmpersand(s)
    ensures Decode("?status=" + s) == (Some(s), None)
  {
    var a := "status=" + s;
    assert ("?status=" + s)[1..] == a;
    FieldWithoutAmpersand("status=", s);
    SplitWithout(a);
    assert a[..7] == "status=" && a[7..] == s;
    assert Lookup([a], "status") == Some(s);
    assert |a| < 14 || a[..14][0] != "paymentStatus="[0];
    assert Lookup([a], "paymentStatus") == None;
  }

  lemma DecodePaymentOnly(p: string)
    requires p != "" && NoAmpersand(p)
    ensures Decode("?paymentStatus=" + p) == (None, Some(p))
  {
    var b := "paymentStatus=" + p;
    assert ("?paymentStatus=" + p)[1..] == b;
    FieldWithoutAmpersand("paymentStatus=", p);
    SplitWithout(b);
    assert b[..7][0] != "status="[0];
    assert Lookup([b], "status") == None;
    assert b[..14] == "paymentStatus=" && b[14..] == p;
    assert Lookup([b], "paymentStatus") == Some(p);
  }

  lemma DecodeNeither()
    ensures Decode("?") == (None, None)
  {
    assert "?"[1..] == "";
    SplitWithout("");
    assert Lookup([""], "status") == None;
    assert Lookup([""], "paymentStatus") == None;
  }

  /** For plain values, the backend reads back exactly the given arguments, and reads
      an absent or empty one as absent. */
  lemma QueryRoundTrip(status: Option<string>, paymentStatus: Option<string>)
    requires status.Some? ==> PlainValue(status.value)
    requires paymentStatus.Some? ==> PlainValue(paymentStatus.value)
    ensures Decode(QuerySuffix(status, paymentStatus)) == (Normalised(status), Normalised(paymentStatus))
  {
    if Present(status) && Present(paymentStatus) {
      DecodeBoth(status.value, paymentStatus.value);
    } else if Present(status) {
      DecodeStatusOnly(status.value);
    } else if Present(paymentStatus) {
      DecodePaymentOnly(paymentStatus.value);
    } else {
      DecodeNeither();
    }
  }

  // ---------------------------------------------------------------- the whole address

  /** Spring's binding of the `{id}` path segment to an `Integer`: an optional '-' and
      at least one decimal digit. */
  function ParseInt(path: string): Option<int> {
    if |path| >= 2 && path[0] == '-' && AllDigits(path[1..]) then Some(-(DecimalValue(path[1..]) as int))
    else if |path| >= 1 && AllDigits(path) then Some(DecimalValue(path))
    else None
  }

  /** What the backend's `PUT /api/orders/update/{id}` mapping binds from an address:
      the id from the path segment up to the first '?', and the two statuses from the
      query after it. None when the address does not reach that mapping. */
  function ParseUpdateUrl(url: string): Option<(int, Option<string>, Option<string>)> {
    var prefix := ApiUrl + "/update/";
    if |url| < |prefix| || url[..|prefix|] != prefix then None
    else
      var rest := url[|prefix|..];
      var q := IndexOf(rest, '?', 0);
      match ParseInt(rest[..q])
      case None => None
      case Some(id) =>
        var (status, paymentStatus) := Decode(rest[q..]);
        Some((id, status, paymentStatus))
  }

  /** Every character of a rendered integer is a digit or the minus sign. */
  lemma IntToStringChars(i: int)
    ensures forall j :: 0 <= j < |IntToString(i)| ==> IntToString(i)[j] == '-' || IsDigit(IntToString(i)[j])
  {
    if i < 0 {
      var d := NatToString(-i);
      assert forall j :: 1 <= j < |IntToString(i)| ==> IntToString(i)[j] == d[j - 1];
    }
  }

  /** The id segment reads back as the order id. */
  lemma ParseIntRoundTrip(i: int)
    ensures ParseInt(IntToString(i)) == Some(i)
  {
    var s := IntToString(i);
    if i < 0 {
      assert s[1..] == NatToString(-i);
      NatToStringRoundTrip(-i);
    } else {
      NatToStringRoundTrip(i);
    }
  }

  /** In a path segment without '?' followed by a query, the first '?' is the query's. */
  lemma QueryStartsAfterPath(num: string, query: string)
    requires forall j :: 0 <= j < |num| ==> num[j] != '?'
    requires |query| >= 1 && query[0] == '?'
    ensures IndexOf(num + query, '?', 0) == |num|
  {
    var rest := num + query;
    assert rest[|num|] == '?';
    assert forall j :: 0 <= j < |num| ==> rest[j] == num[j];
  }

  /** An address made of the mapping's prefix, an id segment without '?' and a query
      binds the segment's integer and the query's statuses. */
  lemma ParseUpdateUrlParts(num: string, query: string)
    requires forall j :: 0 <= j < |num| ==> num[j] != '?'
    requires |query| >= 1 && query[0] == '?'
    ensures ParseUpdateUrl(ApiUrl + "/update/" + num + query) ==
      match ParseInt(num)
      case None => None
      case Some(id) => Some((id, Decode(query).0, Decode(query).1))
  {
    var prefix := ApiUrl + "/update/";
    var url := prefix + num + query;
    assert url == prefix + (num + query);
    assert url[..|prefix|] == prefix;
    var rest := url[|prefix|..];
    assert rest == num + query;
    QueryStartsAfterPath(num, query);
    assert rest[..|num|] == num;
    assert rest[|num|..] == query;
  }

  /** The address a status update requests reaches the update mapping with exactly the
      order id, and with the statuses as `QueryRoundTrip` reads them. */
  lemma UpdateUrlRoundTrip(orderId: int, status: Option<string>, paymentStatus: Option<string>)
    requires status.Some? ==> PlainValue(status.value)
    requires paymentStatus.Some? ==> PlainValue(paymentStatus.value)
    ensures ParseUpdateUrl(UpdateUrl(orderId, status, paymentStatus)) ==
      Some((orderId, Normalised(status), Normalised(paymentStatus)))
  {
    var num := IntToString(orderId);
    var query := QuerySuffix(status, paymentStatus);
    IntToStringChars(orderId);
    ParseUpdateUrlParts(num, query);
    ParseIntRoundTrip(orderId);
    QueryRoundTrip(status, paymentStatus);
  }
}
