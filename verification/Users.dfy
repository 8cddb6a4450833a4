/**
 * The user row (app/database/database.py) that the authentication and
 * profile routes change in place. A password hash is represented by the
 * password it verifies: `verify_password(p, user.password_hash)` is
 * `p == user.password`, and storing `get_password_hash(p)` stores `p`.
 */
module Users {
  class User {
    var id: int
    var password: string
    /** 1 while the user must choose a new password before anything else. */
    var mustChangePassword: int
    /** Vacation weeks by year; `None` in the database reads as the empty map. */
    var vacation: map<int, seq<int>>

    constructor(id: int, password: string, mustChangePassword: int)
      ensures this.id == id && this.password == password
      ensures this.mustChangePassword == mustChangePassword && vacation == map[]
    {
      this.id := id;
      this.password := password;
      this.mustChangePassword := mustChangePassword;
      vacation := map[];
    }
  }
}
