/** The response messages the services and the validator return. */
module Constants {
  const AddressRequired: string := "User Address is Required"
  const InvalidEmailAddress: string := "Invalid Email Address"
  const CityRequired: string := "City is Required"
  const InvalidDob: string := "Date of Birth is Invalid"
  /** The text says "more than 6", but a password of exactly six characters is accepted. */
  const InvalidPassword: string := "Password must be more than 6 characters"
  const InvalidName: string := "Name is Required"
  const LgaRequired: string := "LGA ID is required"
  const AccountNotFound: string := "Account not found"
  const InsufficientFunds: string := "Insufficient Funds"
  const ReceiverAccountNotFound: string := "Receiver account not found"
  const TransferSameAccountError: string := "Can't transfer to same account"
  const SuccessMsg: string := "success"
}
