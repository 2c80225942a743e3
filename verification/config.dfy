/** The configuration values the modelled code reads from `app_config`; each is a
    string, as the `set` command stores it. */
module Config {

  datatype AppConfig = AppConfig(
    issuer: string,              // ISSUER
    userUuid: string,            // USER_UUID
    audience: string,            // GDPR_API_AUDIENCE
    sid: string,                 // SID
    loa: string,                 // LOA
    authorizationField: string,  // GDPR_API_AUTHORIZATION_FIELD
    gdprApiUrl: string,          // GDPR_API_URL
    profileId: string            // PROFILE_ID
  )
}
