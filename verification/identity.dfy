/** Client identity (handler/setup.go, handler/reality.go): the stored secrets that
    issued subscriptions authenticate with, and the settings auto-setup writes. */
module Identity {
  import opened Tables
  import opened Generator
  import EditProtocol

  /** A secret that is already stored never changes. */
  ghost predicate IdentityKept(before: Inbound, after: Inbound) {
    var s, t := before.settings, after.settings;
    && after.protocol == before.protocol
    && (before.protocol == "hysteria2" ==>
          Text(s, "obfs_password") == "" || Text(t, "obfs_password") == Text(s, "obfs_password"))
    && (before.protocol == "vless-reality" ==>
          && (Text(s, "private_key") == "" || Text(s, "public_key") == ""
              || (Text(t, "private_key") == Text(s, "private_key") && Text(t, "public_key") == Text(s, "public_key")))
          && (Text(s, "short_id") == "" || Text(t, "short_id") == Text(s, "short_id")))
    && (before.protocol == "vless-httpupgrade" ==> Text(s, "path") == "" || Text(t, "path") == Text(s, "path"))
  }

  /** Every row is still there, with its identity. */
  ghost predicate AllKept(before: map<int, Inbound>, after: map<int, Inbound>) {
    forall i | i in before :: i in after && IdentityKept(before[i], after[i])
  }

  /** So identity outlives any number of runs. */
  lemma {:induction false} KeptOverRuns(tables: seq<map<int, Inbound>>)
    requires tables != [] && forall k | 0 <= k < |tables| - 1 :: AllKept(tables[k], tables[k + 1])
    ensures AllKept(tables[0], tables[|tables| - 1])
    decreases |tables|
  {
    if |tables| > 1 {
      var init := tables[..|tables| - 1];
      assert forall k | 0 <= k < |init| - 1 :: AllKept(init[k], init[k + 1]);
      KeptOverRuns(init);
      KeptTwice(tables[0], tables[|tables| - 2], tables[|tables| - 1]);
    }
  }

  lemma KeptTwice(a: map<int, Inbound>, b: map<int, Inbound>, c: map<int, Inbound>)
    requires AllKept(a, b) && AllKept(b, c)
    ensures AllKept(a, c)
  {
  }

  /** A Reality target switch rewrites the handshake target only. */
  lemma RetargetKeepsIdentity(row: Inbound, sni: string)
    ensures IdentityKept(row, row.(settings := EditProtocol.WithSni(row.settings, sni)))
  {
  }

  function CertFile(domain: string, ending: string): string {
    "/etc/sing-box/tls/" + domain + ending
  }

  /** hysteriaSettings: a password is made only for a Salamander profile that stores none. */
  function HysteriaSettings(stored: Settings, requested: string, domain: string, drawn: string): Settings {
    var profile := if requested == "" then HysteriaProfile(stored) else requested;
    var settings := stored["profile" := Str(profile)]["domain" := Str(domain)]
                    ["cert_path" := Str(CertFile(domain, ".crt"))]["key_path" := Str(CertFile(domain, ".key"))];
    if profile == "salamander" && Text(settings, "obfs_password") == "" then settings["obfs_password" := Str(drawn)]
    else settings
  }

  function RealitySettings(sni: string, privateKey: string, publicKey: string, shortId: string,
                           server: string): Settings {
    map["sni" := Str(sni), "private_key" := Str(privateKey), "public_key" := Str(publicKey), "short_id" := Str(shortId),
        "handshake_server" := Str(sni), "handshake_port" := Num(443.0), "fingerprint" := Str("chrome"),
        "server" := Str(server)]
  }

  function UpgradeSettings(domain: string, path: string): Settings {
    map["domain" := Str(domain), "path" := Str(path),
        "cert_path" := Str(CertFile(domain, ".crt")), "key_path" := Str(CertFile(domain, ".key"))]
  }

  /** Across profile switches and domain moves: what clients and server agree on is kept, and the
      password in force never changes while the profile stays Salamander. */
  lemma HysteriaKeepsIdentity(row: Inbound, requested: string, domain: string, drawn: string, port: int)
    requires row.protocol == "hysteria2"
    ensures var settings := HysteriaSettings(row.settings, requested, domain, drawn);
            && IdentityKept(row, row.(tag := "hysteria2", port := port, settings := settings))
            && Text(settings, "domain") == domain
            && (var stored := Text(row.settings, "profile");
                Text(settings, "profile") == if requested != "" then requested
                                             else if stored != "" then stored
                                             else if Text(row.settings, "obfs_password") != "" then "salamander"
                                             else "quic")
            && (forall key | key !in {"profile", "domain", "cert_path", "key_path", "obfs_password"} ::
                  && (key in settings <==> key in row.settings)
                  && (key in settings ==> settings[key] == row.settings[key]))
            && (requested == "" ==> HysteriaProfile(settings) == HysteriaProfile(row.settings))
            && (ObfsPassword(row.settings) != "" ==>
                  ObfsPassword(settings)
                  == if requested == "" || requested == "salamander" then ObfsPassword(row.settings) else "")
  {
  }

  /** Switching to QUIC and back leaves the password clients were issued. */
  lemma ProfileRoundTrip(stored: Settings, domain: string, moved: string, drawn: string, other: string)
    requires ObfsPassword(stored) != ""
    ensures ObfsPassword(HysteriaSettings(stored, "quic", domain, drawn)) == ""
    ensures ObfsPassword(HysteriaSettings(HysteriaSettings(stored, "quic", domain, drawn), "salamander", moved, other))
            == ObfsPassword(stored)
  {
  }
}
