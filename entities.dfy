/** The database rows the services read and write. Only the columns the
    core looks at are kept. */
module Entities {

  /** A `user` row. */
  datatype User = User(id: int, userAccount: string, userPassword: string, userName: string, userRole: string)

  /** An `app` row: who created it. */
  datatype App = App(id: int, userId: int)

  /** A `chat_history` row. */
  datatype ChatHistory = ChatHistory(id: int, message: string, messageType: string, appId: int, createTime: int)

  /** UserRoleEnum values. */
  const UserRole := "user"
  const AdminRole := "admin"
}
