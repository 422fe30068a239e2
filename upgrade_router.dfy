/**
 * The upgrade router: one WebSocket path is shared by two subscription
 * servers, and the `Sec-WebSocket-Protocol` offer list (the header of section
 * 11.3.4 of RFC 6455, comma-separated tokens) decides which one takes the
 * handshake. The legacy server gets it only when the client offers the legacy
 * token and not the modern one.
 */
module UpgradeRouter {
  import opened Wrappers
  import opened JsText

  /** The legacy subprotocol token, as exported by subscriptions-transport-ws. */
  const GraphqlWs := "graphql-ws"
  /** The modern subprotocol token, as exported by graphql-ws. */
  const GraphqlTransportWs := "graphql-transport-ws"

  /** `req.headers["sec-websocket-protocol"]`: absent, one string, or an array of strings. */
  datatype ProtocolHeader = Absent | Text(text: string) | Values(values: seq<string>)

  /** The two servers that can take the upgrade. */
  datatype Server = ModernServer | LegacyServer

  function TrimAll(parts: seq<string>): (r: seq<string>)
    ensures |r| == |parts| && forall i :: 0 <= i < |parts| ==> r[i] == Trim(parts[i])
  {
    seq(|parts|, i requires 0 <= i < |parts| => Trim(parts[i]))
  }

  /** The offered protocols: a string is split on "," and each token trimmed; an array is used unchanged. */
  function Protocols(h: ProtocolHeader): Option<seq<string>>
  {
    match h
    case Absent => None
    case Text(t) => Some(TrimAll(Split(t, ',')))
    case Values(v) => Some(v)
  }

  /** The `wss` choice. */
  function ChooseServer(h: ProtocolHeader): Server
  {
    var protocols := Protocols(h);
    if protocols.Some? && GraphqlWs in protocols.value && GraphqlTransportWs !in protocols.value
    then LegacyServer else ModernServer
  }

  /** Tokens around which the client put any white space, joined by commas, parse back to the trimmed tokens. */
  lemma HeaderParses(padded: seq<string>)
    requires |padded| >= 1 && forall i :: 0 <= i < |padded| ==> ',' !in padded[i]
    ensures Protocols(Text(Join(padded, ","))) == Some(TrimAll(padded))
  {
    JoinThenSplit(padded, ',');
  }

  /**
   * On a comma-separated header the legacy server is chosen exactly when some
   * token trims to the legacy name and none trims to the modern one.
   */
  lemma LegacyIffOnlyLegacyOffered(padded: seq<string>)
    requires |padded| >= 1 && forall i :: 0 <= i < |padded| ==> ',' !in padded[i]
    ensures ChooseServer(Text(Join(padded, ","))) == LegacyServer
      <==> (exists i :: 0 <= i < |padded| && Trim(padded[i]) == GraphqlWs)
           && (forall i :: 0 <= i < |padded| ==> Trim(padded[i]) != GraphqlTransportWs)
  {
    HeaderParses(padded);
    TrimAllHas(padded, GraphqlWs);
    TrimAllHas(padded, GraphqlTransportWs);
  }

  lemma TrimAllHas(padded: seq<string>, t: string)
    ensures t in TrimAll(padded) <==> exists i :: 0 <= i < |padded| && Trim(padded[i]) == t
  {
    var p := TrimAll(padded);
    if t in p {
      var i :| 0 <= i < |p| && p[i] == t;
      assert Trim(padded[i]) == t;
    }
  }

  /** With no header the modern server takes the upgrade. */
  lemma NoHeaderModern()
    ensures ChooseServer(Absent) == ModernServer
  {
  }

  /** A client that offers both tokens, in any positions, gets the modern server. */
  lemma BothOfferedModern(h: ProtocolHeader)
    requires Protocols(h).Some? && GraphqlWs in Protocols(h).value && GraphqlTransportWs in Protocols(h).value
    ensures ChooseServer(h) == ModernServer
  {
  }

  /** An array header is not split or trimmed: a padded legacy token in it is not recognised. */
  lemma ArrayHeaderUnchanged()
    ensures Protocols(Values([" graphql-ws"])) == Some([" graphql-ws"])
    ensures ChooseServer(Values([" graphql-ws"])) == ModernServer
    ensures ChooseServer(Values(["graphql-ws"])) == LegacyServer
  {
    assert " graphql-ws" != GraphqlWs by { assert " graphql-ws"[0] != GraphqlWs[0]; }
  }

  /** The legacy token holds no comma and no white space at its ends. */
  lemma LegacyTokenFacts()
    ensures ',' !in GraphqlWs && Trim(GraphqlWs) == GraphqlWs
  {
    NoComma(GraphqlWs);
    TrimKeeps(GraphqlWs);
  }

  /** The modern token holds no comma and no white space at its ends. */
  lemma ModernTokenFacts()
    ensures ',' !in GraphqlTransportWs && Trim(GraphqlTransportWs) == GraphqlTransportWs
  {
    NoComma(GraphqlTransportWs);
    TrimKeeps(GraphqlTransportWs);
  }

  /** Neither token holds a comma or starts or ends with white space, and they differ. */
  lemma TokenFacts()
    ensures ',' !in GraphqlWs && ',' !in GraphqlTransportWs
    ensures Trim(GraphqlWs) == GraphqlWs && Trim(GraphqlTransportWs) == GraphqlTransportWs
    ensures GraphqlWs != GraphqlTransportWs
  {
    LegacyTokenFacts();
    ModernTokenFacts();
    assert |GraphqlWs| != |GraphqlTransportWs|;
  }

  lemma NoComma(t: string)
    requires forall i :: 0 <= i < |t| ==> t[i] != ','
    ensures ',' !in t
  {
  }

  /** A browser offering only "graphql-ws" reaches the legacy server. */
  lemma LegacyOfferExample()
    ensures ChooseServer(Text(GraphqlWs)) == LegacyServer
  {
    TokenFacts();
    var offer := [GraphqlWs];
    assert Join(offer, ",") == GraphqlWs;
    LegacyIffOnlyLegacyOffered(offer);
    assert Trim(offer[0]) == GraphqlWs;
  }

  /** "graphql-transport-ws, graphql-ws" reaches the modern server. */
  lemma BothOfferExample()
    ensures ChooseServer(Text(GraphqlTransportWs + ", " + GraphqlWs)) == ModernServer
  {
    TokenFacts();
    var padded := " " + GraphqlWs;
    assert ',' !in padded by {
      assert padded[1..] == GraphqlWs;
    }
    var both := [GraphqlTransportWs, padded];
    assert Join(both, ",") == GraphqlTransportWs + ", " + GraphqlWs by {
      assert both[1..] == [padded];
      assert Join(both[1..], ",") == padded;
    }
    LegacyIffOnlyLegacyOffered(both);
    assert Trim(both[0]) == GraphqlTransportWs;
  }
}
