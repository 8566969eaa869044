/**
 The pairing link behind the QR code: how it is printed and how it is read back.

 Texts are strings of octets: one char below 256 for each UTF-8 byte.
 */
module Qr {
  import opened Common
  import Decimal

  predicate Octets(s: string) { forall i | 0 <= i < |s| :: s[i] < 256 as char }

  predicate IsUnreserved(c: char) {
    'A' <= c <= 'Z' || 'a' <= c <= 'z' || '0' <= c <= '9' || c == '-' || c == '_' || c == '.' || c == '~'
  }

  predicate Unreserved(s: string) { forall i | 0 <= i < |s| :: IsUnreserved(s[i]) }

  // ---- Percent-encoding (sections 2.1 and 2.3 of RFC 3986)

  function HexDigit(d: nat): char
    requires d < 16
  {
    if d < 10 then '0' + d as char else 'A' + (d - 10) as char
  }

  function HexValue(c: char): Option<nat> {
    if '0' <= c <= '9' then Some(c as nat - '0' as nat) else
    if 'A' <= c <= 'F' then Some(c as nat - 'A' as nat + 10) else
    if 'a' <= c <= 'f' then Some(c as nat - 'a' as nat + 10) else None
  }

  function EncodeOctet(c: char): string
    requires c < 256 as char
  {
    if IsUnreserved(c) then [c] else ['%', HexDigit(c as nat / 16), HexDigit(c as nat % 16)]
  }

  function Encode(s: string): string
    requires Octets(s)
    decreases |s|
  {
    if s == [] then [] else EncodeOctet(s[0]) + Encode(s[1..])
  }

  /** A percent sign with two hexadecimal digits after it. */
  predicate Escape(s: string) {
    |s| >= 3 && s[0] == '%' && HexValue(s[1]).Some? && HexValue(s[2]).Some?
  }

  function Escaped(s: string): (c: char)
    requires Escape(s)
    ensures c < 256 as char
  {
    (16 * HexValue(s[1]).value + HexValue(s[2]).value) as char
  }

  /** A name or value of a query (section 5.1 of the URL Standard): a plus is a space. */
  function FormDecode(s: string): string
    decreases |s|
  {
    if s == [] then [] else
    if Escape(s) then [Escaped(s)] + FormDecode(s[3..]) else
    [if s[0] == '+' then ' ' else s[0]] + FormDecode(s[1..])
  }

  lemma {:induction false} OctetRoundTrip(c: char, rest: string)
    requires c < 256 as char
    ensures FormDecode(EncodeOctet(c) + rest) == [c] + FormDecode(rest)
  {
    var s := EncodeOctet(c) + rest;
    if IsUnreserved(c) {
      assert s[1..] == rest;
    } else {
      var n := c as nat;
      assert HexValue(HexDigit(n / 16)) == Some(n / 16) && HexValue(HexDigit(n % 16)) == Some(n % 16);
      assert s[1] == HexDigit(n / 16) && s[2] == HexDigit(n % 16) && s[3..] == rest;
      assert Escape(s) && Escaped(s) == c;
    }
  }

  /** Decoding undoes encoding, for any octets. */
  lemma {:induction false} EncodeRoundTrip(s: string)
    requires Octets(s)
    ensures FormDecode(Encode(s)) == s
    decreases |s|
  {
    if s != [] {
      EncodeRoundTrip(s[1..]);
      OctetRoundTrip(s[0], Encode(s[1..]));
    }
  }

  /** The digit of value d, in either case. */
  predicate HexSpells(d: nat, c: char)
    requires d < 16
  {
    c == "0123456789ABCDEF"[d] || c == "0123456789abcdef"[d]
  }

  /** The ways to write an octet in a query: as itself, as a plus if it is a space, or as its two hexadecimal digits. */
  predicate Spells(c: char, piece: string) {
    || (piece == [c] && c != '%' && c != '+')
    || (piece == "+" && c == ' ')
    || (c < 256 as char && |piece| == 3 && piece[0] == '%'
        && HexSpells(c as nat / 16, piece[1]) && HexSpells(c as nat % 16, piece[2]))
  }

  function Flatten(pieces: seq<string>): string
    decreases |pieces|
  {
    if pieces == [] then [] else pieces[0] + Flatten(pieces[1..])
  }

  lemma {:induction false} SpellingDecodes(c: char, piece: string, rest: string)
    requires Spells(c, piece)
    ensures FormDecode(piece + rest) == [c] + FormDecode(rest)
  {
    var s := piece + rest;
    if |piece| == 3 {
      HexRead(c as nat / 16, piece[1]);
      HexRead(c as nat % 16, piece[2]);
      assert s[0] == piece[0] && s[1] == piece[1] && s[2] == piece[2] && s[3..] == rest;
      assert Escape(s) && Escaped(s) == c;
    } else {
      assert s[0] == piece[0] && s[1..] == rest;
    }
  }

  lemma HexRead(d: nat, c: char)
    requires d < 16 && HexSpells(d, c)
    ensures HexValue(c) == Some(d)
  {
  }

  /** However a text is written in a query, octet by octet, reading it gives the text. */
  lemma {:induction false} EverySpellingDecodes(s: string, pieces: seq<string>)
    requires |s| == |pieces| && forall i | 0 <= i < |s| :: Spells(s[i], pieces[i])
    ensures FormDecode(Flatten(pieces)) == s
    decreases |s|
  {
    if s != [] {
      EverySpellingDecodes(s[1..], pieces[1..]);
      SpellingDecodes(s[0], pieces[0], Flatten(pieces[1..]));
    }
  }

  /** Unreserved text needs no encoding. */
  lemma {:induction false} UnreservedDecodes(s: string)
    requires Unreserved(s)
    ensures FormDecode(s) == s
    decreases |s|
  {
    if s != [] {
      UnreservedDecodes(s[1..]);
      assert [s[0]] + s[1..] == s;
    }
  }

  /** And is not encoded. */
  lemma {:induction false} UnreservedUnchanged(s: string)
    requires Unreserved(s)
    ensures Octets(s) && Encode(s) == s
    decreases |s|
  {
    if s != [] {
      UnreservedUnchanged(s[1..]);
      assert [s[0]] + s[1..] == s;
    }
  }

  /** Text that can stand anywhere in a query. */
  predicate Plain(s: string) { forall i | 0 <= i < |s| :: IsUnreserved(s[i]) || s[i] == '%' }

  lemma {:induction false} EncodeIsPlain(s: string)
    requires Octets(s)
    ensures Plain(Encode(s))
    decreases |s|
  {
    if s != [] {
      EncodeIsPlain(s[1..]);
      assert Plain(EncodeOctet(s[0]));
    }
  }

  // ---- Splitting and joining

  /** `str::split`: one piece more than there are separators. */
  function Split(s: string, sep: char): (pieces: seq<string>)
    ensures pieces != []
    decreases |s|
  {
    if s == [] then [[]] else
    var rest := Split(s[1..], sep);
    if s[0] == sep then [[]] + rest else [[s[0]] + rest[0]] + rest[1..]
  }

  function Join(pieces: seq<string>, sep: char): string
    decreases |pieces|
  {
    if pieces == [] then [] else
    if |pieces| == 1 then pieces[0] else pieces[0] + [sep] + Join(pieces[1..], sep)
  }

  function NonEmpty(pieces: seq<string>): seq<string>
    decreases |pieces|
  {
    if pieces == [] then [] else (if pieces[0] == [] then [] else [pieces[0]]) + NonEmpty(pieces[1..])
  }

  lemma {:induction false} SplitOne(s: string, sep: char)
    requires sep !in s
    ensures Split(s, sep) == [s]
    decreases |s|
  {
    if s != [] {
      SplitOne(s[1..], sep);
      assert [s[0]] + s[1..] == s;
    }
  }

  lemma {:induction false} SplitFront(piece: string, sep: char, rest: string)
    requires sep !in piece
    ensures Split(piece + [sep] + rest, sep) == [piece] + Split(rest, sep)
    decreases |piece|
  {
    var s := piece + [sep] + rest;
    if piece == [] {
      assert s[1..] == rest;
    } else {
      SplitFront(piece[1..], sep, rest);
      assert s[1..] == piece[1..] + [sep] + rest;
      assert [piece[0]] + piece[1..] == piece;
    }
  }

  predicate Lists(pieces: seq<string>, sep: char) {
    forall i | 0 <= i < |pieces| :: pieces[i] != [] && sep !in pieces[i]
  }

  lemma {:induction false} JoinThenSplit(pieces: seq<string>, sep: char)
    requires Lists(pieces, sep)
    ensures NonEmpty(Split(Join(pieces, sep), sep)) == pieces
    decreases |pieces|
  {
    if |pieces| == 1 {
      SplitOne(pieces[0], sep);
      assert NonEmpty([pieces[0]]) == [pieces[0]] + NonEmpty([pieces[0]][1..]);
    } else if |pieces| > 1 {
      var rest := Split(Join(pieces[1..], sep), sep);
      JoinThenSplit(pieces[1..], sep);
      SplitFront(pieces[0], sep, Join(pieces[1..], sep));
      assert ([pieces[0]] + rest)[1..] == rest;
    }
  }

  lemma {:induction false} SplitPieces(s: string, sep: char)
    ensures forall i | 0 <= i < |Split(s, sep)| :: sep !in Split(s, sep)[i]
    decreases |s|
  {
    if s != [] {
      SplitPieces(s[1..], sep);
    }
  }

  lemma {:induction false} NonEmptyPieces(pieces: seq<string>, sep: char)
    requires forall i | 0 <= i < |pieces| :: sep !in pieces[i]
    ensures Lists(NonEmpty(pieces), sep)
    decreases |pieces|
  {
    if pieces != [] {
      NonEmptyPieces(pieces[1..], sep);
    }
  }

  lemma {:induction false} JoinOctets(pieces: seq<string>, sep: char)
    requires sep < 256 as char && forall i | 0 <= i < |pieces| :: Octets(pieces[i])
    ensures Octets(Join(pieces, sep))
    decreases |pieces|
  {
    if |pieces| > 1 {
      JoinOctets(pieces[1..], sep);
    }
  }

  // ---- The link

  /** What a link carries. */
  datatype Offer = Offer(nodeId: string, secret: string, deviceName: string, port: nat, ips: seq<string>)

  const DEFAULT_PORT: nat := 5200

  const Nothing := Offer("", "", "", DEFAULT_PORT, [])

  datatype Error = InvalidFormat | NotCdus | InvalidPath | MissingFields

  datatype Result = Ok(offer: Offer) | Err(error: Error)

  ghost predicate Printable(o: Offer) {
    && Unreserved(o.nodeId) && Unreserved(o.secret) && Octets(o.deviceName)
    && o.port < 0x1_0000 && forall i | 0 <= i < |o.ips| :: Octets(o.ips[i])
  }

  function Item(key: string, value: string): string { key + "=" + value }

  function Pieces(o: Offer): seq<string>
    requires Octets(o.deviceName) && Octets(Join(o.ips, ','))
  {
    [Item("v", "1"), Item("id", o.nodeId), Item("s", o.secret), Item("l", Encode(o.deviceName)),
     Item("p", Decimal.Print(o.port)), Item("a", Encode(Join(o.ips, ',')))]
  }

  function Print(o: Offer): string
    requires Octets(o.deviceName) && Octets(Join(o.ips, ','))
  {
    "cdus://pair?" + Join(Pieces(o), '&')
  }

  // ---- Reading

  /** The part of a link before the first of the given characters. */
  function Until(s: string, stops: set<char>): (n: nat)
    ensures n <= |s|
    decreases |s|
  {
    if s == [] || s[0] in stops then 0 else 1 + Until(s[1..], stops)
  }

  datatype Url = Url(scheme: string, host: string, path: string, query: string)

  /** The host, if there is one, and what follows it. */
  function TakeHost(s: string): (string, string) {
    if |s| < 2 || s[0] != '/' || s[1] != '/' then ([], s) else
    var n := Until(s[2..], {'/', '?', '#'});
    (s[2..][..n], s[2..][n..])
  }

  /** The path and the query; a fragment is dropped. */
  function TakePath(s: string): (string, string) {
    var n := Until(s, {'?', '#'});
    var query := if n < |s| && s[n] == '?' then s[n + 1..] else [];
    (s[..n], query[..Until(query, {'#'})])
  }

  function ParseUrl(s: string): Option<Url> {
    var n := Until(s, {':'});
    if n == 0 || n == |s| then None else
    var (host, rest) := TakeHost(s[n + 1..]);
    var (path, query) := TakePath(rest);
    Some(Url(s[..n], host, path, query))
  }

  /** A piece of a query: its name and its value, around the first equals sign. */
  function Pair(piece: string): (string, string) {
    var eq := Until(piece, {'='});
    (FormDecode(piece[..eq]), if eq < |piece| then FormDecode(piece[eq + 1..]) else [])
  }

  /** One name and value; a later one replaces an earlier one, and other names are ignored. */
  function Take(o: Offer, key: string, value: string): Offer {
    if key == "id" then o.(nodeId := value) else
    if key == "s" then o.(secret := value) else
    if key == "l" then o.(deviceName := value) else
    if key == "p" then
      o.(port := if Decimal.ParseU16(value).Some? then Decimal.ParseU16(value).value else DEFAULT_PORT) else
    if key == "a" then o.(ips := NonEmpty(Split(value, ','))) else o
  }

  function TakeAll(o: Offer, pieces: seq<string>): Offer
    decreases |pieces|
  {
    if pieces == [] then o else TakeAll(Take(o, Pair(pieces[0]).0, Pair(pieces[0]).1), pieces[1..])
  }

  predicate IsPairing(u: Url) { u.path == "/pair" || u.host == "pair" || u.path == "pair" }

  function Read(u: Url): Result {
    if u.scheme != "cdus" then Err(NotCdus) else
    if !IsPairing(u) then Err(InvalidPath) else
    var o := TakeAll(Nothing, NonEmpty(Split(u.query, '&')));
    if o.nodeId == [] || o.secret == [] then Err(MissingFields) else Ok(o)
  }

  function Parse(payload: string): Result {
    match ParseUrl(payload)
    case None => Err(InvalidFormat)
    case Some(u) => Read(u)
  }

  // ---- What comes out, and when it is refused

  /** The value of the last piece with this name. */
  function Last(pieces: seq<string>, key: string): Option<string>
    decreases |pieces|
  {
    if pieces == [] then None else
    var (name, value) := Pair(pieces[|pieces| - 1]);
    if name == key then Some(value) else Last(pieces[..|pieces| - 1], key)
  }

  function Or(o: Option<string>): string { match o case Some(s) => s case None => "" }

  /** The port: 5200 if it is not given or is no number below 2^16. */
  function PortOf(o: Option<string>): nat {
    if o.Some? && Decimal.ParseU16(o.value).Some? then Decimal.ParseU16(o.value).value else 5200
  }

  lemma {:induction false} TakeLast(o: Offer, pieces: seq<string>)
    requires pieces != []
    ensures var (key, value) := Pair(pieces[|pieces| - 1]);
      TakeAll(o, pieces) == Take(TakeAll(o, pieces[..|pieces| - 1]), key, value)
    decreases |pieces|
  {
    if |pieces| == 1 {
      assert pieces[1..] == [] && pieces[..0] == [];
    } else {
      var (key, value) := Pair(pieces[0]);
      TakeLast(Take(o, key, value), pieces[1..]);
      FrontOfRest(pieces);
    }
  }

  lemma FrontOfRest(pieces: seq<string>)
    requires |pieces| > 1
    ensures pieces[1..][..|pieces| - 2] == pieces[..|pieces| - 1][1..]
    ensures pieces[1..][|pieces| - 2] == pieces[|pieces| - 1] && pieces[..|pieces| - 1][0] == pieces[0]
  {
  }

  /** The offer that the pieces of a query make. */
  function Made(pieces: seq<string>): Offer {
    Offer(Or(Last(pieces, "id")), Or(Last(pieces, "s")), Or(Last(pieces, "l")), PortOf(Last(pieces, "p")),
          match Last(pieces, "a") case Some(list) => NonEmpty(Split(list, ',')) case None => [])
  }

  lemma {:induction false} LastPieceCounts(pieces: seq<string>)
    ensures TakeAll(Nothing, pieces) == Made(pieces)
    decreases |pieces|
  {
    if pieces != [] {
      TakeLast(Nothing, pieces);
      LastPieceCounts(pieces[..|pieces| - 1]);
    }
  }

  /** Of every name the last value counts and other names do not; a link is refused, in this order, if it is no URL,
      has another scheme, is not for pairing, or lacks an id or a secret. */
  lemma {:induction false} ParseIff(payload: string)
    ensures var u := ParseUrl(payload); var r := Parse(payload);
      && (r == Err(InvalidFormat) <==> u.None?)
      && (u.Some? ==>
            var pieces := NonEmpty(Split(u.value.query, '&'));
            var ours := u.value.scheme == "cdus";
            var pairing := u.value.path == "/pair" || u.value.host == "pair" || u.value.path == "pair";
            var named := Or(Last(pieces, "id")) != "" && Or(Last(pieces, "s")) != "";
            && (r == Err(NotCdus) <==> !ours)
            && (r == Err(InvalidPath) <==> ours && !pairing)
            && (r == Err(MissingFields) <==> ours && pairing && !named)
            && (r.Ok? <==> ours && pairing && named)
            && (r.Ok? ==> r.offer == Made(pieces)))
  {
    if ParseUrl(payload).Some? {
      LastPieceCounts(NonEmpty(Split(ParseUrl(payload).value.query, '&')));
    }
  }

  // ---- Both as they are written

  method ParseQrPayload(payload: string) returns (r: Result)
    ensures r == Parse(payload)
  {
    var url := ParseUrl(payload);
    if url.None? { return Err(InvalidFormat); }
    var u := url.value;
    if u.scheme != "cdus" { return Err(NotCdus); }
    if !(u.path == "/pair" || u.host == "pair" || u.path == "pair") { return Err(InvalidPath); }
    var nodeId, secret, deviceName, ips := "", "", "", [];
    var port: nat := DEFAULT_PORT;
    var pieces := NonEmpty(Split(u.query, '&'));
    while pieces != []
      invariant TakeAll(Offer(nodeId, secret, deviceName, port, ips), pieces)
             == TakeAll(Nothing, NonEmpty(Split(u.query, '&')))
      decreases |pieces|
    {
      var (key, value) := Pair(pieces[0]);
      if key == "id" {
        nodeId := value;
      } else if key == "s" {
        secret := value;
      } else if key == "l" {
        deviceName := value;
      } else if key == "p" {
        var n := Decimal.ParseU16(value);
        port := if n.Some? then n.value else DEFAULT_PORT;
      } else if key == "a" {
        ips := NonEmpty(Split(value, ','));
      }
      pieces := pieces[1..];
    }
    if nodeId == [] || secret == [] { return Err(MissingFields); }
    r := Ok(Offer(nodeId, secret, deviceName, port, ips));
  }

  /** The address inside a listen address such as /ip4/192.168.1.5/tcp/4000, if it is worth offering. */
  predicate Offered(address: string, ip: string) {
    |Split(address, '/')| > 2 && ip == Split(address, '/')[2]
    && ip != "127.0.0.1" && !("172.17." <= ip)
  }

  lemma {:induction false} SplitNext(piece: string, tail: string)
    requires '/' !in piece
    ensures Split(piece + ("/" + tail), '/') == [piece] + Split(tail, '/')
  {
    SplitFront(piece, '/', tail);
    assert piece + ['/'] + tail == piece + ("/" + tail);
  }

  lemma ThirdPiece(a: string, b: string, d: string, more: seq<string>)
    ensures var all := [a] + ([b] + ([d] + more)); |all| > 2 && all[2] == d
  {
  }

  /** A listen address /proto/ip/... offers its second component, unless that is the loopback address or one of the
      container network's. */
  lemma {:induction false} OfferedIff(proto: string, ip: string, rest: string, offer: string)
    requires '/' !in proto && '/' !in ip
    ensures Offered("" + ("/" + (proto + ("/" + (ip + ("/" + rest))))), offer)
            <==> offer == ip && ip != "127.0.0.1" && !("172.17." <= ip)
  {
    SplitNext("", proto + ("/" + (ip + ("/" + rest))));
    SplitNext(proto, ip + ("/" + rest));
    SplitNext(ip, rest);
    ThirdPiece("", proto, ip, Split(rest, '/'));
  }

  /** The addresses a link offers: each that qualifies, once. */
  method OfferedIps(addresses: seq<string>) returns (ips: seq<string>)
    ensures forall i, j | 0 <= i < j < |ips| :: ips[i] != ips[j]
    ensures forall ip :: ip in ips <==> exists k | 0 <= k < |addresses| :: Offered(addresses[k], ip)
  {
    ips := [];
    for n := 0 to |addresses|
      invariant forall i, j | 0 <= i < j < |ips| :: ips[i] != ips[j]
      invariant forall ip :: ip in ips <==> exists k | 0 <= k < n :: Offered(addresses[k], ip)
    {
      var parts := Split(addresses[n], '/');
      if |parts| > 2 {
        var ip := parts[2];
        if ip !in ips && ip != "127.0.0.1" && !("172.17." <= ip) {
          ips := ips + [ip];
        }
      }
    }
  }

  // ---- Reading undoes printing

  lemma {:induction false} UntilStop(front: string, stop: char, rest: string, stops: set<char>)
    requires stop in stops && forall i | 0 <= i < |front| :: front[i] !in stops
    ensures Until(front + [stop] + rest, stops) == |front|
    decreases |front|
  {
    var s := front + [stop] + rest;
    if front != [] {
      assert s[0] == front[0] && s[1..] == front[1..] + [stop] + rest;
      UntilStop(front[1..], stop, rest, stops);
    }
  }

  lemma {:induction false} UntilNever(s: string, stops: set<char>)
    requires forall i | 0 <= i < |s| :: s[i] !in stops
    ensures Until(s, stops) == |s|
    decreases |s|
  {
    if s != [] {
      UntilNever(s[1..], stops);
    }
  }

  /** A piece of a query reads back as its name and decoded value. */
  lemma {:induction false} PairOf(key: string, value: string)
    requires Unreserved(key)
    ensures Pair(Item(key, value)) == (key, FormDecode(value))
  {
    var piece := Item(key, value);
    UntilStop(key, '=', value, {'='});
    UnreservedDecodes(key);
    assert piece[..|key|] == key && piece[|key| + 1..] == value;
  }

  /** A text without the given characters, up to the end or to one of them. */
  lemma {:induction false} UntilEnd(front: string, rest: string, stops: set<char>)
    requires (forall i | 0 <= i < |front| :: front[i] !in stops) && (rest == [] || rest[0] in stops)
    ensures Until(front + rest, stops) == |front|
  {
    if rest == [] {
      assert front + rest == front;
      UntilNever(front, stops);
    } else {
      assert front + [rest[0]] + rest[1..] == front + rest;
      UntilStop(front, rest[0], rest[1..], stops);
    }
  }

  predicate Free(s: string, stops: set<char>) { forall i | 0 <= i < |s| :: s[i] !in stops }

  lemma CutAt(a: string, b: string)
    ensures (a + b)[..|a|] == a && (a + b)[|a|..] == b
  {
  }

  lemma {:induction false} QueryFound(path: string, query: string, end: string)
    requires Free(path, {'?', '#'}) && Free(query, {'#'}) && (end == "" || end[0] == '#')
    ensures TakePath(path + ("?" + (query + end))) == (path, query)
  {
    var tail := "?" + (query + end);
    UntilEnd(path, tail, {'?', '#'});
    CutAt(path, tail);
    CutAt("?", query + end);
    assert (path + tail)[|path| + 1..] == tail[1..];
    UntilEnd(query, end, {'#'});
    CutAt(query, end);
  }

  lemma {:induction false} NoQuery(path: string, end: string)
    requires Free(path, {'?', '#'}) && (end == "" || end[0] == '#')
    ensures TakePath(path + end) == (path, "")
  {
    UntilEnd(path, end, {'?', '#'});
    CutAt(path, end);
  }

  /** What follows the host: a path, perhaps a query, perhaps a fragment. */
  function AfterHost(path: string, query: Option<string>, end: string): string {
    match query case Some(q) => path + ("?" + (q + end)) case None => path + end
  }

  /** A URL with a host reads as its parts (section 3 of RFC 3986); `end` is the fragment with its sign. */
  lemma {:induction false} UrlParts(scheme: string, host: string, path: string, query: Option<string>, end: string)
    requires scheme != "" && Free(scheme, {':'}) && Free(host, {'/', '?', '#'})
    requires (path == "" || path[0] == '/') && Free(path, {'?', '#'})
    requires Free(Or(query), {'#'}) && (end == "" || end[0] == '#')
    ensures ParseUrl(scheme + (":" + ("//" + (host + AfterHost(path, query, end)))))
         == Some(Url(scheme, host, path, Or(query)))
  {
    var tail := AfterHost(path, query, end);
    SchemeFound(scheme, "//" + (host + tail));
    HostFound(host, tail);
    if query.Some? { QueryFound(path, query.value, end); } else { NoQuery(path, end); }
  }

  lemma {:induction false} SchemeFound(scheme: string, rest: string)
    requires scheme != "" && Free(scheme, {':'})
    ensures var s := scheme + (":" + rest); var n := Until(s, {':'});
      0 < n < |s| && s[..n] == scheme && s[n + 1..] == rest
  {
    UntilEnd(scheme, ":" + rest, {':'});
    CutAt(scheme, ":" + rest);
    CutAt(":", rest);
    assert (scheme + (":" + rest))[|scheme| + 1..] == (":" + rest)[1..];
  }

  lemma {:induction false} HostFound(host: string, tail: string)
    requires Free(host, {'/', '?', '#'}) && (tail == "" || tail[0] in {'/', '?', '#'})
    ensures TakeHost("//" + (host + tail)) == (host, tail)
  {
    CutAt("//", host + tail);
    UntilEnd(host, tail, {'/', '?', '#'});
    CutAt(host, tail);
  }

  /** One without a host has only a path. */
  lemma {:induction false} PathOnly(scheme: string, path: string, query: Option<string>, end: string)
    requires scheme != "" && Free(scheme, {':'}) && path != "" && !("//" <= path) && Free(path, {'?', '#'})
    requires Free(Or(query), {'#'}) && (end == "" || end[0] == '#')
    ensures ParseUrl(scheme + (":" + AfterHost(path, query, end))) == Some(Url(scheme, "", path, Or(query)))
  {
    SchemeFound(scheme, AfterHost(path, query, end));
    if query.Some? {
      NoHost(path, "?" + (query.value + end));
      QueryFound(path, query.value, end);
    } else {
      NoHost(path, end);
      NoQuery(path, end);
    }
  }

  lemma NoHost(path: string, rest: string)
    requires path != "" && !("//" <= path) && (rest == "" || rest[0] in {'?', '#'})
    ensures TakeHost(path + rest) == ("", path + rest)
  {
    var s := path + rest;
    assert s[0] == path[0] && (|path| > 1 ==> s[1] == path[1]) && (|path| == 1 && rest != "" ==> s[1] == rest[0]);
  }

  lemma HostOf(query: string)
    ensures TakeHost("//pair?" + query) == ("pair", "?" + query)
  {
    var s := "//pair?" + query;
    assert s[2..] == "pair" + ['?'] + query;
    UntilStop("pair", '?', query, {'/', '?', '#'});
    assert s[2..][..4] == "pair" && s[2..][4..] == "?" + query;
  }

  lemma PathOf(query: string)
    requires '#' !in query
    ensures TakePath("?" + query) == ("", query)
  {
    var s := "?" + query;
    assert s == "" + ['?'] + query;
    UntilStop("", '?', query, {'?', '#'});
    UntilNever(query, {'#'});
    assert s[1..] == query && query[..|query|] == query;
  }

  /** A link to the pairing host reads as its query. */
  lemma LinkOf(query: string)
    requires '#' !in query
    ensures ParseUrl("cdus://pair?" + query) == Some(Url("cdus", "pair", "", query))
  {
    var s, rest := "cdus://pair?" + query, "//pair?" + query;
    assert s == "cdus" + [':'] + rest;
    UntilStop("cdus", ':', rest, {':'});
    HostOf(query);
    PathOf(query);
    assert s[..4] == "cdus" && s[5..] == rest;
  }

  lemma {:induction false} JoinLacks(pieces: seq<string>, sep: char, c: char)
    requires c != sep && forall i | 0 <= i < |pieces| :: c !in pieces[i]
    ensures c !in Join(pieces, sep)
    decreases |pieces|
  {
    if |pieces| > 1 {
      JoinLacks(pieces[1..], sep, c);
    }
  }

  lemma PlainLacks(s: string, c: char)
    requires Plain(s) && !IsUnreserved(c) && c != '%'
    ensures c !in s
  {
  }

  /** What the pieces of a printed link are made of. */
  lemma PiecesPlain(o: Offer, c: char)
    requires Printable(o) && Octets(Join(o.ips, ',')) && c in {'&', '#'}
    ensures forall i | 0 <= i < |Pieces(o)| :: Pieces(o)[i] != [] && c !in Pieces(o)[i]
  {
    EncodeIsPlain(o.deviceName);
    EncodeIsPlain(Join(o.ips, ','));
    Decimal.PrintThenValue(o.port);
    PlainLacks(o.nodeId, c);
    PlainLacks(o.secret, c);
    PlainLacks(Decimal.Print(o.port), c);
    PlainLacks(Encode(o.deviceName), c);
    PlainLacks(Encode(Join(o.ips, ',')), c);
  }

  lemma {:induction false} TakeItem(o: Offer, pieces: seq<string>, i: nat, key: string, value: string)
    requires i < |pieces| && pieces[i] == Item(key, value) && Unreserved(key)
    ensures TakeAll(o, pieces[i..]) == TakeAll(Take(o, key, FormDecode(value)), pieces[i + 1..])
  {
    PairOf(key, value);
    assert pieces[i..][1..] == pieces[i + 1..];
  }

  /** The values of a printed link decode to what was printed. */
  lemma ValuesDecode(o: Offer)
    requires Printable(o) && Octets(Join(o.ips, ','))
    ensures FormDecode(o.nodeId) == o.nodeId && FormDecode(o.secret) == o.secret
    ensures FormDecode(Encode(o.deviceName)) == o.deviceName
    ensures Decimal.ParseU16(FormDecode(Decimal.Print(o.port))) == Some(o.port)
    ensures FormDecode(Encode(Join(o.ips, ','))) == Join(o.ips, ',')
  {
    Decimal.PrintThenValue(o.port);
    Decimal.PrintThenParse(o.port);
    UnreservedDecodes(o.nodeId);
    UnreservedDecodes(o.secret);
    UnreservedDecodes(Decimal.Print(o.port));
    EncodeRoundTrip(o.deviceName);
    EncodeRoundTrip(Join(o.ips, ','));
  }

  lemma {:induction false} VersionItem(o: Offer, all: seq<string>)
    requires |all| == 6 && all[0] == Item("v", "1")
    ensures TakeAll(o, all) == TakeAll(o, all[1..])
  {
    assert all[0..] == all;
    TakeItem(o, all, 0, "v", "1");
  }

  lemma {:induction false} IdItem(o: Offer, all: seq<string>, id: string)
    requires |all| == 6 && all[1] == Item("id", id)
    ensures TakeAll(o, all[1..]) == TakeAll(o.(nodeId := FormDecode(id)), all[2..])
  {
    TakeItem(o, all, 1, "id", id);
  }

  lemma {:induction false} SecretItem(o: Offer, all: seq<string>, secret: string)
    requires |all| == 6 && all[2] == Item("s", secret)
    ensures TakeAll(o, all[2..]) == TakeAll(o.(secret := FormDecode(secret)), all[3..])
  {
    TakeItem(o, all, 2, "s", secret);
  }

  lemma {:induction false} NameItem(o: Offer, all: seq<string>, name: string)
    requires |all| == 6 && all[3] == Item("l", name)
    ensures TakeAll(o, all[3..]) == TakeAll(o.(deviceName := FormDecode(name)), all[4..])
  {
    TakeItem(o, all, 3, "l", name);
  }

  lemma {:induction false} PortItem(o: Offer, all: seq<string>, port: string, n: nat)
    requires |all| == 6 && all[4] == Item("p", port) && Decimal.ParseU16(FormDecode(port)) == Some(n)
    ensures TakeAll(o, all[4..]) == TakeAll(o.(port := n), all[5..])
  {
    TakeItem(o, all, 4, "p", port);
  }

  lemma {:induction false} ListItem(o: Offer, all: seq<string>, list: string)
    requires |all| == 6 && all[5] == Item("a", list)
    ensures TakeAll(o, all[5..]) == o.(ips := NonEmpty(Split(FormDecode(list), ',')))
  {
    TakeItem(o, all, 5, "a", list);
    assert all[6..] == [];
  }

  lemma PiecesAre(o: Offer)
    requires Octets(o.deviceName) && Octets(Join(o.ips, ','))
    ensures var all := Pieces(o);
      && |all| == 6 && all[0] == Item("v", "1") && all[1] == Item("id", o.nodeId) && all[2] == Item("s", o.secret)
      && all[3] == Item("l", Encode(o.deviceName)) && all[4] == Item("p", Decimal.Print(o.port))
      && all[5] == Item("a", Encode(Join(o.ips, ',')))
  {
  }

  lemma {:induction false} SixItems(all: seq<string>, o: Offer, name: string, port: string, list: string)
    requires |all| == 6 && all[0] == Item("v", "1") && all[1] == Item("id", o.nodeId) && all[2] == Item("s", o.secret)
    requires all[3] == Item("l", name) && all[4] == Item("p", port) && all[5] == Item("a", list)
    requires FormDecode(o.nodeId) == o.nodeId && FormDecode(o.secret) == o.secret && FormDecode(name) == o.deviceName
    requires Decimal.ParseU16(FormDecode(port)) == Some(o.port)
    ensures TakeAll(Nothing, all) == o.(ips := NonEmpty(Split(FormDecode(list), ',')))
  {
    var a := Nothing.(nodeId := o.nodeId);
    var b := a.(secret := o.secret);
    var d := b.(deviceName := o.deviceName);
    VersionItem(Nothing, all);
    IdItem(Nothing, all, o.nodeId);
    SecretItem(a, all, o.secret);
    NameItem(b, all, name);
    PortItem(d, all, port, o.port);
    ListItem(d.(port := o.port), all, list);
  }

  /** The pieces of a printed link, read in order, give everything back; the addresses as a split list. */
  lemma PiecesRead(o: Offer)
    requires Printable(o) && Octets(Join(o.ips, ','))
    ensures TakeAll(Nothing, Pieces(o)) == o.(ips := NonEmpty(Split(Join(o.ips, ','), ',')))
  {
    ValuesDecode(o);
    PiecesAre(o);
    SixItems(Pieces(o), o, Encode(o.deviceName), Decimal.Print(o.port), Encode(Join(o.ips, ',')));
  }

  /** Parsing a printed link gives back the same five values exactly if there is an id and a secret and
      every address is non-empty and has no comma. */
  lemma LinkRoundTripIff(o: Offer)
    requires Printable(o)
    ensures Octets(Join(o.ips, ','))
    ensures Parse(Print(o)) == Ok(o) <==> o.nodeId != [] && o.secret != [] && Lists(o.ips, ',')
  {
    JoinOctets(o.ips, ',');
    PiecesPlain(o, '&');
    PiecesPlain(o, '#');
    JoinLacks(Pieces(o), '&', '#');
    LinkOf(Join(Pieces(o), '&'));
    JoinThenSplit(Pieces(o), '&');
    PiecesRead(o);
    var list := Split(Join(o.ips, ','), ',');
    if Lists(o.ips, ',') {
      JoinThenSplit(o.ips, ',');
    } else {
      SplitPieces(Join(o.ips, ','), ',');
      NonEmptyPieces(list, ',');
    }
  }

  /** The listen addresses a device may have: whatever is offered is an address without commas. */
  ghost predicate Proper(addresses: seq<string>) {
    forall k, ip | 0 <= k < |addresses| :: Offered(addresses[k], ip) ==> Octets(ip) && ip != [] && ',' !in ip
  }

  lemma OfferedAreProper(addresses: seq<string>, ips: seq<string>)
    requires Proper(addresses)
    requires forall ip :: ip in ips <==> exists k | 0 <= k < |addresses| :: Offered(addresses[k], ip)
    ensures Lists(ips, ',') && forall i | 0 <= i < |ips| :: Octets(ips[i])
  {
    forall i | 0 <= i < |ips| ensures Octets(ips[i]) && ips[i] != [] && ',' !in ips[i] {
      assert ips[i] in ips;
      var k :| 0 <= k < |addresses| && Offered(addresses[k], ips[i]);
    }
  }

  /** `generate_qr_payload`, given the random secret: what it prints reads back as what it was given. */
  method GenerateQrPayload(nodeId: string, secret: string, deviceName: Option<string>, port: nat,
                           addresses: seq<string>)
    returns (payload: string, ips: seq<string>)
    requires Unreserved(nodeId) && Unreserved(secret) && port < 0x1_0000
    requires (deviceName.Some? ==> Octets(deviceName.value)) && Proper(addresses)
    ensures forall ip :: ip in ips <==> exists k | 0 <= k < |addresses| :: Offered(addresses[k], ip)
    ensures nodeId != [] && secret != [] ==>
              Parse(payload) == Ok(Offer(nodeId, secret, Shown(deviceName), port, ips))
  {
    ips := OfferedIps(addresses);
    OfferedAreProper(addresses, ips);
    var offer := Offer(nodeId, secret, Shown(deviceName), port, ips);
    LinkRoundTripIff(offer);
    payload := Print(offer);
  }

  function Shown(deviceName: Option<string>): string {
    match deviceName
    case Some(name) => name
    case None => "Unknown"
  }
}
