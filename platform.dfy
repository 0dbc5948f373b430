/** Client-type detection of internal/pkg/platform/client.go. */
module Platform {
  import Text

  datatype ClientType = WebAdmin | WebCustomer | Mobile

  /** The string value of each ClientType constant. */
  function ClientTypeText(ct: ClientType): string
  {
    match ct
    case WebAdmin => "web-admin"
    case WebCustomer => "web-customer"
    case Mobile => "mobile"
  }

  /** User-Agent fragments of the React Native / Expo / OkHttp stacks. */
  predicate MobileAgent(ua: string)
  {
    var l := Text.Lower(ua);
    Text.Contains(l, "expo") || Text.Contains(l, "reactnative") || Text.Contains(l, "react-native")
    || Text.Contains(l, "okhttp")
  }

  /** `ResolveClientType`: an explicit header (any letter case) wins, then the User-Agent. */
  function ResolveClientType(clientHeader: string, userAgent: string): ClientType
  {
    var header := Text.Lower(clientHeader);
    if header == "mobile" then Mobile
    else if header == "web-admin" then WebAdmin
    else if header == "web-customer" then WebCustomer
    else if MobileAgent(userAgent) then Mobile
    else WebCustomer
  }

  /** `IsWebClient`. */
  predicate IsWebClient(ct: ClientType) { ct == WebAdmin || ct == WebCustomer }

  /** The header overrides the User-Agent: sending a client type's own name, in
      any letter case, yields that client type back. */
  lemma HeaderRoundTrip(ct: ClientType, header: string, userAgent: string)
    requires Text.Lower(header) == ClientTypeText(ct)
    ensures ResolveClientType(header, userAgent) == ct
  {
  }

  /** Without a recognised header the User-Agent decides between Mobile and
      WebCustomer; WebAdmin is produced only by the explicit header. */
  lemma ResolveSpec(clientHeader: string, userAgent: string)
    ensures ResolveClientType(clientHeader, userAgent) == WebAdmin <==> Text.Lower(clientHeader) == "web-admin"
    ensures (forall ct :: Text.Lower(clientHeader) != ClientTypeText(ct)) ==>
      ResolveClientType(clientHeader, userAgent) == (if MobileAgent(userAgent) then Mobile else WebCustomer)
  {
    if (forall ct :: Text.Lower(clientHeader) != ClientTypeText(ct)) {
      assert Text.Lower(clientHeader) != ClientTypeText(Mobile);
      assert Text.Lower(clientHeader) != ClientTypeText(WebAdmin);
      assert Text.Lower(clientHeader) != ClientTypeText(WebCustomer);
    }
  }

  /** Only the mobile client is not a web client. */
  lemma IsWebClientSpec(ct: ClientType)
    ensures IsWebClient(ct) <==> ct != Mobile
  {
  }
}
