/**
 * The sign-in form (components/LoginForm.tsx): one fixed pair of
 * credentials, checked on submit.
 */
module LoginForm {

  const ExpectedUsername := "safak"
  const ExpectedPassword := "123654"
  const BadCredentials := "Hatalı kullanıcı adı veya şifre!"

  class LoginState {
    var username: string
    var password: string
    var error: string

    /** The empty form. */
    constructor ()
      ensures username == "" && password == "" && error == ""
    {
      username := "";
      password := "";
      error := "";
    }

    /** The user name field. */
    method EditUsername(value: string)
      modifies this
      ensures username == value && password == old(password) && error == old(error)
    {
      username := value;
    }

    /** The password field. */
    method EditPassword(value: string)
      modifies this
      ensures password == value && username == old(username) && error == old(error)
    {
      password := value;
    }

    /** Whether the fields hold the one accepted pair. */
    predicate CredentialsMatch()
      reads this
    {
      username == ExpectedUsername && password == ExpectedPassword
    }

    /**
     * `handleSubmit`: `onLogin` is called (true) exactly for the accepted
     * pair; otherwise the error is shown. The fields themselves never change,
     * and a success leaves an earlier error in place.
     */
    method HandleSubmit() returns (loggedIn: bool)
      modifies this
      ensures loggedIn <==> old(CredentialsMatch())
      ensures loggedIn ==> error == old(error)
      ensures !loggedIn ==> error == BadCredentials
      ensures username == old(username) && password == old(password)
    {
      if username == ExpectedUsername && password == ExpectedPassword {
        return true;
      }
      error := BadCredentials;
      return false;
    }
  }
}
