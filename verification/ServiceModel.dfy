/** What the handlers and the services share: the error codes of a response and the
    public fields of a user. */
module ServiceModel {
  const SUCCESS := 0
  const INTERNAL_ERROR := 1000
  const INVALID_ARGUMENT := 1001
  const USER_NOT_FOUND := 2001
  const USER_ALREADY_EXISTS := 2002
  const PASSWORD_INCORRECT := 2003
  const VERIFICATION_CODE_MISMATCH := 3002

  datatype UserInfo = UserInfo(userId: string, username: string, email: string, avatarUrl: string, phone: string)
}
