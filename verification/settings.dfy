/** Application configuration the aggregator reads: API credentials and the medical trigger keywords. */
module Settings {
  import opened Wrappers

  /** The Naver client id and secret, either of which may be unset. */
  datatype Credentials = Credentials(clientId: Option<string>, clientSecret: Option<string>)

  /** Python's `client_id and client_secret`: both present and non-empty. */
  predicate HasCredentials(c: Credentials) {
    c.clientId.Some? && c.clientId.value != "" && c.clientSecret.Some? && c.clientSecret.value != ""
  }

  /** Why a collection run refused to start. */
  datatype RunError = MissingApiKeys

  /** The configured medical trigger keywords, in configuration order. */
  const MedicalKeywords: seq<string> := [
    "의료", "병원", "의사", "간호사", "환자", "질병", "치료",
    "약", "수술", "건강", "보건", "코로나", "COVID", "백신",
    "진료", "암", "당뇨", "고혈압", "의학", "한의학", "약국",
    "제약", "신약", "임상", "진단", "검사", "의료기기"
  ]

  /** The daily article budget of the live collection. */
  const MaxArticlesPerDay: int := 100
}
