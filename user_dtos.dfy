/** The change-password request body (backend/src/users/dtos/change-password.dto.ts). Its regular
    expression is the registration one. */
module UserDtos {
  import opened Common
  import AuthDtos

  datatype ChangePasswordDto = ChangePasswordDto(oldPassword: Option<string>, password: Option<string>, confirmPassword: Option<string>)

  /** `@IsNotEmpty` on the old password; `@IsDefined`, `@MinLength(8)` and `@Matches` on the new one;
      only `@IsDefined` on the confirmation, whose equality the service checks. */
  predicate ValidChangePassword(d: ChangePasswordDto) {
    && AuthDtos.Present(d.oldPassword)
    && d.password.Some? && |d.password.value| >= 8 && AuthDtos.RegisterRegexMatches(d.password.value)
    && d.confirmPassword.Some?
  }

  /** The rule reduces to: an old password, a new one of at least eight characters, and some
      confirmation, possibly empty. */
  lemma ValidChangePasswordMeaning(d: ChangePasswordDto)
    ensures ValidChangePassword(d) <==>
      && d.oldPassword.Some? && d.oldPassword.value != ""
      && d.password.Some? && |d.password.value| >= 8
      && d.confirmPassword.Some?
  {
    if d.password.Some? {
      AuthDtos.RegisterRegexIffNonEmpty(d.password.value);
    }
  }
}
