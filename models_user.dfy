/** Record shapes for the (single) user profile. */
module UserModel {
  import opened Wrappers

  datatype User = User(
    id: string, name: string, email: Option<string>, avatarPath: Option<string>,
    joinDate: string, isPremium: bool, createdAt: string, updatedAt: string)

  datatype CreateUserRequest = CreateUserRequest(name: string, email: Option<string>)

  datatype UpdateUserRequest = UpdateUserRequest(
    name: Option<string>, email: Option<string>, avatarPath: Option<string>, isPremium: Option<bool>)
}
