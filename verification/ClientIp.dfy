/** Client address behind proxies: `createClientIpResolver` of src/security/requestContext.ts.

    Parsing an address and testing it against the trusted networks are parameters; a parsed
    address is given by its canonical text. */
module ClientIp {
  import opened Options

  const MAX_FORWARDED_HEADER_LENGTH := 4096
  const MAX_PROXY_HOPS := 32

  /** With no networks configured the header is never read. */
  datatype Resolver = Resolver(anyNetworks: bool, parse: string -> Option<string>, trusts: string -> bool)

  /** A header given more than once may arrive as a list. */
  datatype Header = Absent | Single(text: string) | Several(texts: seq<string>)

  datatype Request = Request(remoteAddress: Option<string>, forwardedFor: Header)

  /** `text.split(",")`. */
  function Split(text: string): (parts: seq<string>)
    ensures |parts| > 0 && (text == "" ==> parts == [""])
  {
    if text == "" then [""]
    else
      var init, last := Split(text[..|text| - 1]), text[|text| - 1];
      if last == ',' then init + [""]
      else init[..|init| - 1] + [init[|init| - 1] + [last]]
  }

  predicate Parses(r: Resolver, raw: seq<string>) {
    forall x | x in raw :: r.parse(x).Some?
  }

  function ParseAll(r: Resolver, raw: seq<string>): (hops: seq<string>)
    requires Parses(r, raw)
    ensures |hops| == |raw| && forall i | 0 <= i < |raw| :: hops[i] == r.parse(raw[i]).value
  {
    if raw == [] then [] else ParseAll(r, raw[..|raw| - 1]) + [r.parse(raw[|raw| - 1]).value]
  }

  predicate Acceptable(r: Resolver, header: string) {
    |header| <= MAX_FORWARDED_HEADER_LENGTH && |Split(header)| <= MAX_PROXY_HOPS && Parses(r, Split(header))
  }

  /** Walking left while the hop in hand is trusted. */
  function ClientOf(r: Resolver, hops: seq<string>): string
    requires hops != []
  {
    var last := hops[|hops| - 1];
    if |hops| == 1 || !r.trusts(last) then last else ClientOf(r, hops[..|hops| - 1])
  }

  /** None is the answer "unknown". */
  function Resolve(r: Resolver, req: Request): Option<string> {
    if req.remoteAddress.None? || r.parse(req.remoteAddress.value).None? then None
    else
      var peer := r.parse(req.remoteAddress.value).value;
      if !r.anyNetworks || req.forwardedFor.Absent? || !r.trusts(peer) then Some(peer)
      else if !req.forwardedFor.Single? || !Acceptable(r, req.forwardedFor.text) then None
      else Some(ClientOf(r, ParseAll(r, Split(req.forwardedFor.text)) + [peer]))
  }

  method ResolveClientIp(r: Resolver, req: Request) returns (ip: Option<string>)
    ensures ip == Resolve(r, req)
  {
    if req.remoteAddress.None? { return None; }
    var directPeer := r.parse(req.remoteAddress.value);
    if directPeer.None? { return None; }
    if !r.anyNetworks || req.forwardedFor.Absent? { return directPeer; }
    if !r.trusts(directPeer.value) { return directPeer; }
    if !req.forwardedFor.Single? || |req.forwardedFor.text| > MAX_FORWARDED_HEADER_LENGTH { return None; }
    var rawHops := Split(req.forwardedFor.text);
    if |rawHops| > MAX_PROXY_HOPS || !Parses(r, rawHops) { return None; }
    var candidate := WalkHops(r, ParseAll(r, rawHops) + [directPeer.value]);
    ip := Some(candidate);
  }

  /** The loop over the hops, the direct peer being the last of them. */
  method WalkHops(r: Resolver, hops: seq<string>) returns (candidate: string)
    requires hops != []
    ensures candidate == ClientOf(r, hops)
  {
    var index := |hops| - 2;
    candidate := hops[|hops| - 1];
    assert hops[..|hops|] == hops;
    while index >= 0
      invariant -1 <= index <= |hops| - 2 && candidate == hops[index + 1]
      invariant ClientOf(r, hops) == ClientOf(r, hops[..index + 2])
    {
      assert hops[..index + 2][..index + 1] == hops[..index + 1];
      if !r.trusts(candidate) { break; }
      candidate := hops[index];
      index := index - 1;
    }
  }

  /** The client is hop i: everything to its right is trusted, and it is untrusted itself or the
      leftmost hop. */
  predicate ClientAt(r: Resolver, hops: seq<string>, i: nat) {
    i < |hops| && (forall j | i < j < |hops| :: r.trusts(hops[j])) && (i == 0 || !r.trusts(hops[i]))
  }

  lemma {:induction false} ClientIsRightmostUntrusted(r: Resolver, hops: seq<string>, i: nat)
    requires hops != []
    ensures ClientAt(r, hops, i) ==> ClientOf(r, hops) == hops[i]
    ensures exists j: nat :: ClientAt(r, hops, j)
  {
    var last := |hops| - 1;
    if last == 0 || !r.trusts(hops[last]) {
      assert ClientAt(r, hops, last);
    } else {
      var init := hops[..last];
      ClientIsRightmostUntrusted(r, init, i);
      var j: nat :| ClientAt(r, init, j);
      assert forall k | j < k < |hops| :: k == last || hops[k] == init[k];
      assert ClientAt(r, hops, j);
      if ClientAt(r, hops, i) && i < last {
        assert forall k | i < k < |init| :: init[k] == hops[k];
        assert ClientAt(r, init, i);
      }
    }
  }

  /** Text without a comma is one part; with the lemma on commas this determines every split. */
  lemma {:induction false} SplitWithoutComma(text: string)
    requires ',' !in text
    ensures Split(text) == [text]
  {
    if text != "" {
      SplitWithoutComma(text[..|text| - 1]);
      assert text == text[..|text| - 1] + [text[|text| - 1]];
    }
  }

  lemma SplitStep(text: string, c: char)
    ensures var init := Split(text);
            Split(text + [c]) == if c == ',' then init + [""] else init[..|init| - 1] + [init[|init| - 1] + [c]]
  {
  }

  /** Text before a comma contributes whole parts to the left. */
  lemma {:induction false} SplitAtComma(left: string, right: string)
    ensures Split(left + "," + right) == Split(left) + Split(right)
  {
    hide Split;
    if right == "" {
      SplitStep(left, ',');
      assert left + "," + right == left + [','];
    } else {
      var init, last := right[..|right| - 1], right[|right| - 1];
      SplitAtComma(left, init);
      SplitStep(left + "," + init, last);
      SplitStep(init, last);
      assert left + "," + right == left + "," + init + [last] && right == init + [last];
      AppendToLast(Split(left), Split(init), [last]);
    }
  }

  lemma AppendToLast(a: seq<string>, b: seq<string>, tail: string)
    requires b != []
    ensures var all := a + b;
            all[..|all| - 1] + [all[|all| - 1] + tail] == a + (b[..|b| - 1] + [b[|b| - 1] + tail])
  {
  }

  lemma ParseAllConcat(r: Resolver, a: seq<string>, b: seq<string>)
    requires Parses(r, a + b)
    ensures Parses(r, a) && Parses(r, b) && ParseAll(r, a + b) == ParseAll(r, a) + ParseAll(r, b)
  {
  }

  lemma {:induction false} UntrustedStops(r: Resolver, left: seq<string>, right: seq<string>)
    requires right != [] && exists x | x in right :: !r.trusts(x)
    ensures ClientOf(r, left + right) == ClientOf(r, right)
  {
    var last := |right| - 1;
    assert (left + right)[|left + right| - 1] == right[last];
    if r.trusts(right[last]) {
      var x :| x in right && !r.trusts(x);
      assert x in right[..last];
      UntrustedStops(r, left, right[..last]);
      assert (left + right)[..|left + right| - 1] == left + right[..last];
    }
  }

  /** What an acceptable header behind a trusted peer comes to. */
  lemma TrustedPeerWalks(r: Resolver, peer: string, header: string)
    requires r.anyNetworks && r.parse(peer).Some? && r.trusts(r.parse(peer).value) && Acceptable(r, header)
    ensures Resolve(r, Request(Some(peer), Single(header)))
         == Some(ClientOf(r, ParseAll(r, Split(header)) + [r.parse(peer).value]))
  {
  }

  /** The answer is the rightmost untrusted hop of the header, or its leftmost hop when all are
      trusted. */
  lemma TrustedChainResolves(r: Resolver, peer: string, header: string) returns (i: nat)
    requires r.anyNetworks && r.parse(peer).Some? && r.trusts(r.parse(peer).value) && Acceptable(r, header)
    ensures var hops := ParseAll(r, Split(header));
            i < |hops| && ClientAt(r, hops, i) && Resolve(r, Request(Some(peer), Single(header))) == Some(hops[i])
  {
    var hops, client := ParseAll(r, Split(header)), r.parse(peer).value;
    var all := hops + [client];
    TrustedPeerWalks(r, peer, header);
    hide Resolve, ClientOf, Split, Acceptable;
    ClientIsRightmostUntrusted(r, all, 0);
    i :| ClientAt(r, all, i);
    ClientIsRightmostUntrusted(r, all, i);
    assert all[|hops|] == client;
    assert forall j | i < j < |hops| :: hops[j] == all[j];
  }

  /** The header has a say: some network is trusted, the header is there, and the peer that sent
      it lies in a trusted network. */
  predicate Consulted(r: Resolver, req: Request) {
    && req.remoteAddress.Some? && r.parse(req.remoteAddress.value).Some?
    && r.anyNetworks && !req.forwardedFor.Absent? && r.trusts(r.parse(req.remoteAddress.value).value)
  }

  /** A header that can be walked: one line of at most 4096 characters and 32 hops, each of which
      is an address. */
  predicate Walkable(r: Resolver, header: Header) {
    && header.Single? && |header.text| <= 4096 && |Split(header.text)| <= 32
    && forall i | 0 <= i < |Split(header.text)| :: r.parse(Split(header.text)[i]).Some?
  }

  /** Every request.  "Unknown" is answered exactly for a peer without an address and for a header
      that has a say but cannot be walked; a header without a say leaves the peer itself; and any
      other answer is hop i of the header, the rightmost untrusted one, or the leftmost when all
      are trusted. */
  lemma EveryRequestResolves(r: Resolver, req: Request) returns (i: nat)
    ensures Resolve(r, req).None? <==>
              || req.remoteAddress.None? || r.parse(req.remoteAddress.value).None?
              || (Consulted(r, req) && !Walkable(r, req.forwardedFor))
    ensures Resolve(r, req).Some? && !Consulted(r, req) ==> Resolve(r, req) == r.parse(req.remoteAddress.value)
    ensures Resolve(r, req).Some? && Consulted(r, req) ==>
              && req.forwardedFor.Single? && i < |Split(req.forwardedFor.text)|
              && (forall j | 0 <= j < |Split(req.forwardedFor.text)| :: r.parse(Split(req.forwardedFor.text)[j]).Some?)
              && (forall j | i < j < |Split(req.forwardedFor.text)| :: r.trusts(r.parse(Split(req.forwardedFor.text)[j]).value))
              && Resolve(r, req) == r.parse(Split(req.forwardedFor.text)[i])
              && (i == 0 || !r.trusts(Resolve(r, req).value))
  {
    i := 0;
    if req.forwardedFor.Single? {
      assert Acceptable(r, req.forwardedFor.text) <==> Walkable(r, req.forwardedFor);
      if Consulted(r, req) && Walkable(r, req.forwardedFor) {
        i := TrustedChainResolves(r, req.remoteAddress.value, req.forwardedFor.text);
      }
    }
  }

  lemma PrependedParts(r: Resolver, left: seq<string>, right: seq<string>, client: string)
    requires Parses(r, left + right)
    requires exists x | x in right :: r.parse(x).Some? && !r.trusts(r.parse(x).value)
    ensures Parses(r, right)
    ensures ClientOf(r, ParseAll(r, left + right) + [client]) == ClientOf(r, ParseAll(r, right) + [client])
  {
    ParseAllConcat(r, left, right);
    hide ClientOf;
    var hops := ParseAll(r, right);
    var x :| x in right && !r.trusts(r.parse(x).value);
    var i :| 0 <= i < |right| && right[i] == x;
    assert (hops + [client])[i] == r.parse(x).value;
    UntrustedStops(r, ParseAll(r, left), hops + [client]);
    assert ParseAll(r, left) + hops + [client] == ParseAll(r, left) + (hops + [client]);
  }

  /** Behind a trusted peer, once the header holds an untrusted hop, text prepended to it is
      without effect as long as the header stays acceptable; so is taking such text away. */
  lemma PrependedHopsDoNotMatter(r: Resolver, peer: string, left: string, header: string)
    requires r.anyNetworks && r.parse(peer).Some? && r.trusts(r.parse(peer).value)
    requires Acceptable(r, left + "," + header)
    requires exists x | x in Split(header) :: r.parse(x).Some? && !r.trusts(r.parse(x).value)
    ensures Acceptable(r, header)
    ensures Resolve(r, Request(Some(peer), Single(left + "," + header))) == Resolve(r, Request(Some(peer), Single(header)))
  {
    hide Resolve, ClientOf, Split;
    SplitAtComma(left, header);
    PrependedParts(r, Split(left), Split(header), r.parse(peer).value);
    TrustedPeerWalks(r, peer, left + "," + header);
    TrustedPeerWalks(r, peer, header);
  }
}
